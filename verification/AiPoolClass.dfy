/**
 * The inference pool in place: the array queues of jobs and results, and the critical sections
 * of its threads and of the recorder on a shared frame ring.
 */
module AiPoolImpl {
  import opened Common
  import opened FrameRingModel
  import opened FrameRingOps
  import opened Pipeline
  import opened FrameRingImpl

  /** Abandons every job that still owns a buffer among the first n array entries. */
  function DrainUpTo(r: Ring, jobs: seq<Job>, n: nat, env: nat -> bool): (r': Ring)
    requires |r.slots| == RING_N && n <= |jobs|
    ensures |r'.slots| == RING_N
  {
    if n == 0 then r
    else
      var p := DrainUpTo(r, jobs, n - 1, env);
      if jobs[n - 1].rgb.Some? then Abandon(p, jobs[n - 1], env) else p
  }

  function Disowned(jobs: seq<Job>, n: nat): (jobs': seq<Job>)
    requires n <= |jobs|
    ensures |jobs'| == |jobs|
    ensures forall j :: 0 <= j < |jobs| ==> jobs'[j] == if j < n then jobs[j].(rgb := None) else jobs[j]
  {
    seq(|jobs|, j requires 0 <= j < |jobs| => if j < n then jobs[j].(rgb := None) else jobs[j])
  }

  /** The pool shutdown of the pipeline, n steps into its scan of the array. */
  function Scanned(p: Pipe, n: nat, env: nat -> bool): (p': Pipe)
    requires Shaped(p)
    ensures |p'.ring.slots| == RING_N && QueueOk(p'.queue) && p'.ring.ctl.produceSeq == p.ring.ctl.produceSeq
    ensures p'.lastSeq == p.lastSeq
  {
    if n == 0 then p else DrainNext(Scanned(p, n - 1, env), env)
  }

  /** Scanning the array in one go is the same as the pipeline's steps one after the other. */
  lemma {:induction false} DrainIsScan(p: Pipe, n: nat, env: nat -> bool)
    requires Shaped(p) && p.pool == Draining(0) && n <= QUEUE_CAP
    ensures var p' := Scanned(p, n, env);
            && p'.pool == Draining(n) && p'.queue.jobs == Disowned(p.queue.jobs, n)
            && p'.ring == DrainUpTo(p.ring, p.queue.jobs, n, env)
  {
    if n > 0 {
      DrainIsScan(p, n - 1, env);
      hide Abandon;
      var q := Scanned(p, n - 1, env);
      assert Disowned(p.queue.jobs, n) == Disowned(p.queue.jobs, n - 1)[n - 1 := p.queue.jobs[n - 1].(rgb := None)];
      assert p.queue.jobs[n - 1].rgb.None? ==> Disowned(p.queue.jobs, n) == Disowned(p.queue.jobs, n - 1);
    }
  }

  class AiPool {
    const ring: FrameRing
    const jobs: array<Job>
    const results: array<nat>

    var running: bool
    var qHead: nat
    var qTail: nat
    var qCount: nat
    var rHead: nat
    var rTail: nat
    var rCount: nat
    var lastSeq: nat
    var nextSeq: nat

    ghost predicate Valid()
      reads this, jobs, ring
    {
      && ring.Valid() && jobs.Length == QUEUE_CAP && results.Length == RESULT_CAP
      && QueueOk(Queue())
      && rHead < RESULT_CAP && rTail < RESULT_CAP && rCount <= RESULT_CAP
      && rTail == (rHead + rCount) % RESULT_CAP
    }

    ghost function Queue(): JobQueue
      reads this, jobs
    {
      JobQueue(jobs[..], qHead, qTail, qCount)
    }

    /** The queued results, oldest first. */
    ghost function Results(): seq<nat>
      requires Valid()
      reads this, jobs, ring, results
    {
      Window(results[..], rHead, rCount)
    }

    constructor (ring: FrameRing)
      requires ring.Valid()
      ensures Valid() && this.ring == ring && fresh(jobs) && fresh(results) && Results() == []
    {
      this.ring := ring;
      jobs := new Job[QUEUE_CAP](_ => NO_JOB);
      results := new nat[RESULT_CAP];
      running := true;
      qHead, qTail, qCount := 0, 0, 0;
      rHead, rTail, rCount := 0, 0, 0;
      lastSeq, nextSeq := 0, 0;
    }

    // ---------------------------------------------------------------- queues

    /** Runs once the wait for room is over: there is room, or the pool was stopped. */
    method QueuePush(job: Job) returns (ok: bool)
      requires Valid() && (running ==> qCount < QUEUE_CAP)
      modifies `qTail, `qCount, jobs
      ensures Valid() && ok == running
      ensures Queue() == if ok then Enqueue(old(Queue()), job) else old(Queue())
    {
      if !running {
        return false;
      }
      jobs[qTail] := job;
      qTail := (qTail + 1) % QUEUE_CAP;
      qCount := qCount + 1;
      return true;
    }

    method QueuePop() returns (job: Option<Job>)
      requires Valid()
      modifies `qHead, `qCount, jobs
      ensures Valid()
      ensures if old(qCount) == 0 then job.None? && Queue() == old(Queue())
              else job.Some? && (Queue(), job.value) == Pop(old(Queue()))
    {
      if qCount == 0 {
        return None;
      }
      job := Some(jobs[qHead]);
      jobs[qHead] := jobs[qHead].(rgb := None);
      qHead := (qHead + 1) % QUEUE_CAP;
      qCount := qCount - 1;
    }

    method ResultPush(q: nat) returns (ok: bool)
      requires Valid() && (running ==> rCount < RESULT_CAP)
      modifies `rTail, `rCount, results
      ensures Valid() && ok == running
      ensures Results() == if ok then old(Results()) + [q] else old(Results())
    {
      if !running {
        return false;
      }
      WrapIsMod(rHead + rCount, RESULT_CAP);
      WindowPush(results[..], rHead, rCount, q);
      results[rTail] := q;
      rTail := (rTail + 1) % RESULT_CAP;
      rCount := rCount + 1;
      return true;
    }

    method ResultTryPop() returns (q: Option<nat>)
      requires Valid()
      modifies `rHead, `rCount
      ensures Valid()
      ensures if old(Results()) == [] then q.None? && Results() == []
              else q.Some? && old(Results()) == [q.value] + Results()
    {
      if rCount == 0 {
        return None;
      }
      WrapIsMod(rHead + 1, RESULT_CAP);
      WindowPop(results[..], rHead, rCount);
      q := Some(results[rHead]);
      rHead := (rHead + 1) % RESULT_CAP;
      rCount := rCount - 1;
    }

    /** The composer's drain: takes the oldest result and drops it for every newer one queued. */
    method NewestResult() returns (q: Option<nat>)
      requires Valid()
      modifies `rHead, `rCount
      ensures Valid() && Results() == []
      ensures q == if old(Results()) == [] then None else Some(old(Results())[|old(Results())| - 1])
    {
      ghost var all := Results();
      q := ResultTryPop();
      if q.None? {
        return;
      }
      var newer := q;
      while newer.Some?
        invariant Valid() && q.Some? && rCount <= |all|
        invariant Results() == all[|all| - rCount..]
        invariant newer.Some? ==> rCount < |all| && q.value == all[|all| - rCount - 1]
        invariant newer.None? ==> Results() == [] && q.value == all[|all| - 1]
        decreases newer.Some?, rCount
      {
        newer := ResultTryPop();
        if newer.Some? {
          q := newer;
        }
      }
    }

    // ---------------------------------------------------------------- feeder

    /** Claims the next frame after `lastSeq` that can be claimed, passing over the others. */
    method ClaimNext() returns (q: Option<nat>)
      requires Valid() && lastSeq <= ring.produceSeq
      modifies `lastSeq, ring.slots
      ensures Valid()
      ensures var f := NextClaim(old(ring.Value()), old(lastSeq));
              && lastSeq == f - 1
              && q == (if f <= ring.produceSeq then Some(f) else None)
              && ring.Value() == InferClaim(old(ring.Value()), f)
    {
      ghost var r, f := ring.Value(), NextClaim(ring.Value(), lastSeq);
      q := None;
      while lastSeq < ring.produceSeq
        invariant lastSeq <= ring.produceSeq && ring.Value() == r && NextClaim(r, lastSeq) == f
        decreases ring.produceSeq - lastSeq
      {
        var hit := ring.InferClaim(lastSeq + 1);
        if hit {
          return Some(lastSeq + 1);
        }
        lastSeq := lastSeq + 1;
      }
    }

    // ---------------------------------------------------------------- workers

    method Abandon(job: Job)
      requires Valid()
      modifies ring, ring.slots
      ensures Valid() && ring.Value() == Pipeline.Abandon(old(ring.Value()), job, ring.nodeOk)
    {
      var i := SlotIndex(job.frame);
      if ring.slots[i].frame == job.frame && ring.slots[i].claims > 0 {
        ring.InferUnclaim(i, true);
      }
      ghost var r := ring.Value();
      ring.BufPut(Rgb, job.rgb);
      assert ring.Value() == r.(store := ring.Books());
    }

    method WriteBack(job: Job)
      requires Valid()
      modifies ring, ring.slots
      ensures Valid() && ring.Value() == Pipeline.WriteBack(old(ring.Value()), job, ring.nodeOk)
    {
      var i := SlotIndex(job.frame);
      ghost var r := ring.Value();
      if ring.slots[i].frame == job.frame && ring.slots[i].claims > 0 {
        ring.AttachRgb(i, job.rgb);
        ring.InferUnclaim(i, true);
      } else {
        ring.BufPut(Rgb, job.rgb);
        assert ring.Value() == r.(store := ring.Books());
      }
    }

    method DrainEntry(i: nat)
      requires Valid() && i < QUEUE_CAP
      modifies jobs, ring, ring.slots
      ensures Valid() && jobs[..] == old(jobs[..])[i := old(jobs[i]).(rgb := None)]
      ensures ring.Value() == if old(jobs[i]).rgb.Some?
                              then Pipeline.Abandon(old(ring.Value()), old(jobs[i]), ring.nodeOk) else old(ring.Value())
    {
      if jobs[i].rgb.Some? {
        var job := jobs[i];
        jobs[i] := job.(rgb := None);
        Abandon(job);
      }
    }

    /** Runs after every worker was joined: gives up the jobs nobody took. */
    method Drain()
      requires Valid()
      modifies this, jobs, ring, ring.slots
      ensures Valid() && qCount == 0 && Results() == []
      ensures jobs[..] == Disowned(old(jobs[..]), QUEUE_CAP)
      ensures ring.Value() == DrainUpTo(old(ring.Value()), old(jobs[..]), QUEUE_CAP, ring.nodeOk)
    {
      ghost var r, js := ring.Value(), jobs[..];
      for i := 0 to QUEUE_CAP
        invariant Valid() && jobs[..] == Disowned(js, i)
        invariant ring.Value() == DrainUpTo(r, js, i, ring.nodeOk)
      {
        DrainEntry(i);
        assert jobs[..] == Disowned(js, i + 1);
      }
      qHead, qTail, qCount := 0, 0, 0;
      rHead, rTail, rCount := 0, 0, 0;
      lastSeq := 0;
    }

    // ---------------------------------------------------------------- composer

    /** Chooses the frame to draw and takes its output buffers, or gives the result up. */
    method RenderPick(f: nat, nvOk: bool, wantJpeg: bool, jpOk: bool) returns (c: Composer)
      requires Valid()
      modifies `nextSeq, ring
      ensures Valid()
      ensures var r, s := old(ring.Value()), old(ring.slots[SlotIndex(f)]);
              if f <= old(nextSeq) || !Renderable(s, f)
              then c == Resting && ring.Value() == r && nextSeq == old(nextSeq)
              else
                var (st, nv12, jpeg) := TakeBoth(r.store, FrameBytes(s.w, s.h) * 3 / 2, nvOk, wantJpeg, jpOk);
                && ring.Value() == r.(store := st) && nextSeq == f
                && c == Rendering(f, s.w, s.h, s.rgb.value, nv12, jpeg, 0)
    {
      var s := ring.slots[SlotIndex(f)];
      if f <= nextSeq || !Renderable(s, f) {
        return Resting;
      }
      var nv12 := ring.BufTake(Nv12, FrameBytes(s.w, s.h) * 3 / 2, nvOk);
      var jpeg := None;
      if wantJpeg {
        jpeg := ring.BufTake(Jpeg, JPEG_CAP, jpOk);
      }
      nextSeq := f;
      c := Rendering(f, s.w, s.h, s.rgb.value, nv12, jpeg, 0);
    }

    method GiveBack(nv12: Option<Buf>, jpeg: Option<Buf>)
      requires Valid()
      modifies ring
      ensures Valid()
      ensures ring.Value() == old(ring.Value()).(store := PutBoth(old(ring.Books()), nv12, jpeg, ring.nodeOk))
    {
      ring.BufPut(Nv12, nv12);
      ring.BufPut(Jpeg, jpeg);
    }

    method RenderCommit(c: Composer, ok: bool)
      requires Valid() && c.Rendering?
      modifies ring, ring.slots
      ensures Valid() && ring.Value() == Pipeline.RenderCommit(old(ring.Value()), c, ok, ring.nodeOk)
    {
      hide FrameRingOps.DisplayCommit, PutBoth;
      var i := SlotIndex(c.frame);
      var s := ring.slots[i];
      if !Renderable(s, c.frame) {
        GiveBack(c.nv12, c.jpeg);
        return;
      }
      if ok {
        ring.AttachOutputs(i, c.nv12, c.jpeg);
      } else {
        GiveBack(c.nv12, c.jpeg);
      }
      ring.DisplayCommit(i);
    }
  }
}
