/**
 * The CAN frame queue at the granularity of its individual instructions: any number of
 * producers that try-lock a mutex, one consumer that takes no lock, and two semaphores between
 * them.  A slot that is being written is torn until the write ends.
 */
module CanQueue {
  import opened Common
  import opened Bytes

  const SLOTS: nat := 64

  datatype Frame = Frame(id: nat, data: seq<Byte>)

  datatype Cell = Whole(frame: Frame) | Torn

  /** Where a producer stands inside its push. */
  datatype Producer =
    | Outside
    | Locked(frame: Frame)
    | Granted(frame: Frame)
    | Writing(frame: Frame)
    | Written(frame: Frame)
    | Advanced(frame: Frame)
    | Leaving(accepted: bool)

  /**
   * Where the consumer stands inside its pop.  A read is torn if at any moment between its
   * beginning and its end a producer was writing the same slot.
   */
  datatype Consumer = Idle | Taking | Reading(torn: bool) | Got(cell: Cell) | Passed(cell: Cell)

  /**
   * Shared memory and thread positions, and the history: `queued` are the frames in the order
   * their used_sem posts took effect, `takes` counts the successful waits of the consumer and
   * `delivered` are the frames its pops returned.
   */
  datatype Sys = Sys(
    cells: seq<Cell>, head: nat, tail: nat, used: nat, free: nat, lock: Option<nat>,
    producers: seq<Producer>, consumer: Consumer,
    queued: seq<Frame>, takes: nat, delivered: seq<Cell>)

  datatype Step =
    | TryLock(i: nat, frame: Frame)
    | TryWaitFree(i: nat)
    | WriteBegin(i: nat)
    | WriteEnd(i: nat)
    | BumpHead(i: nat)
    | PostUsed(i: nat)
    | Unlock(i: nat)
    | TryWaitUsed
    | ReadBegin
    | ReadEnd
    | BumpTail
    | PostFree

  // ---------------------------------------------------------------- steps

  ghost predicate Shaped(s: Sys) {
    |s.cells| == SLOTS && s.head < SLOTS && s.tail < SLOTS
  }

  ghost predicate Enabled(s: Sys, t: Step) {
    match t
    case TryLock(i, _) => i < |s.producers| && s.producers[i].Outside?
    case TryWaitFree(i) => i < |s.producers| && s.producers[i].Locked?
    case WriteBegin(i) => i < |s.producers| && s.producers[i].Granted?
    case WriteEnd(i) => i < |s.producers| && s.producers[i].Writing?
    case BumpHead(i) => i < |s.producers| && s.producers[i].Written?
    case PostUsed(i) => i < |s.producers| && s.producers[i].Advanced?
    case Unlock(i) => i < |s.producers| && s.producers[i].Leaving?
    case TryWaitUsed => s.consumer.Idle?
    case ReadBegin => s.consumer.Taking?
    case ReadEnd => s.consumer.Reading?
    case BumpTail => s.consumer.Got?
    case PostFree => s.consumer.Passed?
  }

  function At(s: Sys, i: nat, p: Producer): Sys
    requires i < |s.producers|
  {
    s.(producers := s.producers[i := p])
  }

  function Bump(index: nat): nat { if index + 1 >= SLOTS then 0 else index + 1 }

  function Next(s: Sys, t: Step): Sys
    requires Shaped(s) && Enabled(s, t)
  {
    match t
    case TryLock(i, f) => if s.lock.None? then At(s, i, Locked(f)).(lock := Some(i)) else s
    case TryWaitFree(i) =>
      if s.free > 0 then At(s, i, Granted(s.producers[i].frame)).(free := s.free - 1)
      else At(s, i, Leaving(false))
    case WriteBegin(i) =>
      At(s, i, Writing(s.producers[i].frame)).(
        cells := s.cells[s.head := Torn],
        consumer := if s.consumer.Reading? && s.tail == s.head then Reading(true) else s.consumer)
    case WriteEnd(i) =>
      At(s, i, Written(s.producers[i].frame)).(cells := s.cells[s.head := Whole(s.producers[i].frame)])
    case BumpHead(i) => At(s, i, Advanced(s.producers[i].frame)).(head := Bump(s.head))
    case PostUsed(i) =>
      At(s, i, Leaving(true)).(used := s.used + 1, queued := s.queued + [s.producers[i].frame])
    case Unlock(i) => At(s, i, Outside).(lock := None)
    case TryWaitUsed => if s.used > 0 then s.(used := s.used - 1, consumer := Taking, takes := s.takes + 1) else s
    case ReadBegin => s.(consumer := Reading(s.cells[s.tail].Torn?))
    case ReadEnd => s.(consumer := Got(if s.consumer.torn then Torn else s.cells[s.tail]))
    case BumpTail => s.(consumer := Passed(s.consumer.cell), tail := Bump(s.tail))
    case PostFree => s.(consumer := Idle, free := s.free + 1, delivered := s.delivered + [s.consumer.cell])
  }

  // ---------------------------------------------------------------- invariant

  /** A push between its wait on free_sem and its post on used_sem. */
  predicate Holding(p: Producer) { p.Granted? || p.Writing? || p.Written? || p.Advanced? }

  /** The producer that holds the lock, Outside if the lock is free. */
  function Inside(s: Sys): Producer {
    if s.lock.Some? && s.lock.value < |s.producers| then s.producers[s.lock.value] else Outside
  }

  function PushInFlight(s: Sys): nat { if Holding(Inside(s)) then 1 else 0 }

  function PopInFlight(s: Sys): nat { if s.consumer.Idle? then 0 else 1 }

  /** The semaphores and the operations in flight account for all slots. */
  ghost predicate SemaphoresOk(s: Sys) {
    && s.used + s.free + PushInFlight(s) + PopInFlight(s) == SLOTS
    && s.takes <= |s.queued| && s.used == |s.queued| - s.takes
    && (!s.consumer.Idle? ==> s.takes > 0)
  }

  /** Only the lock holder is inside a push. */
  ghost predicate LockOk(s: Sys) {
    && (s.lock.Some? ==> s.lock.value < |s.producers| && !s.producers[s.lock.value].Outside?)
    && forall i :: 0 <= i < |s.producers| && !s.producers[i].Outside? ==> s.lock == Some(i)
  }

  /** Number of the oldest frame whose slot is still needed. */
  function Oldest(s: Sys): nat
    requires !s.consumer.Idle? ==> s.takes > 0
  {
    if s.consumer.Taking? || s.consumer.Reading? || s.consumer.Got? then s.takes - 1 else s.takes
  }

  /** The indices follow the counts of frames queued and taken. */
  ghost predicate IndicesOk(s: Sys)
    requires SemaphoresOk(s)
  {
    && |s.cells| == SLOTS
    && s.head == (if Inside(s).Advanced? then |s.queued| + 1 else |s.queued|) % SLOTS
    && s.tail == Oldest(s) % SLOTS
  }

  /** Every frame still needed is whole in its slot. */
  ghost predicate CellsOk(s: Sys)
    requires SemaphoresOk(s) && IndicesOk(s)
  {
    && (forall k :: Oldest(s) <= k < |s.queued| ==> s.cells[k % SLOTS] == Whole(s.queued[k]))
    && (Inside(s).Written? || Inside(s).Advanced? ==> s.cells[|s.queued| % SLOTS] == Whole(Inside(s).frame))
  }

  /** Pops return the queued frames in order, whole. */
  ghost predicate DeliveryOk(s: Sys)
    requires SemaphoresOk(s)
  {
    && |s.delivered| == s.takes - PopInFlight(s)
    && (forall k :: 0 <= k < |s.delivered| ==> s.delivered[k] == Whole(s.queued[k]))
    && (s.consumer.Reading? ==> !s.consumer.torn)
    && (s.consumer.Got? || s.consumer.Passed? ==> s.consumer.cell == Whole(s.queued[s.takes - 1]))
  }

  ghost predicate Inv(s: Sys) {
    LockOk(s) && SemaphoresOk(s) && IndicesOk(s) && CellsOk(s) && DeliveryOk(s)
  }

  lemma InvShaped(s: Sys)
    requires Inv(s)
    ensures Shaped(s)
  {
  }

  /** A push in flight writes to a slot that no frame still needed occupies. */
  lemma SlotIsFree(s: Sys, k: nat)
    requires SemaphoresOk(s) && Holding(Inside(s)) && Oldest(s) <= k < |s.queued|
    ensures k % SLOTS != |s.queued| % SLOTS
  {
    assert |s.queued| - Oldest(s) < SLOTS;
  }

  lemma BumpIs(n: nat)
    ensures Bump(n % SLOTS) == (n + 1) % SLOTS
  {
  }

  /** While the consumer is inside a read, the slot it reads is not the one a push may write. */
  lemma ReadersSlot(s: Sys)
    requires Inv(s) && (s.consumer.Taking? || s.consumer.Reading?) && Holding(Inside(s)) && !Inside(s).Advanced?
    ensures s.tail != s.head
  {
    SlotIsFree(s, s.takes - 1);
  }

  lemma LockStepsKeep(s: Sys, t: Step)
    requires Inv(s) && Enabled(s, t) && Shaped(s) && (t.TryLock? || t.TryWaitFree? || t.Unlock?)
    ensures Inv(Next(s, t))
  {
  }

  lemma WriteBeginKeeps(s: Sys, i: nat)
    requires Inv(s) && Enabled(s, WriteBegin(i)) && Shaped(s)
    ensures Inv(Next(s, WriteBegin(i)))
  {
    if s.consumer.Reading? {
      ReadersSlot(s);
    }
    forall k | Oldest(s) <= k < |s.queued| ensures k % SLOTS != s.head { SlotIsFree(s, k); }
  }

  lemma WriteEndKeeps(s: Sys, i: nat)
    requires Inv(s) && Enabled(s, WriteEnd(i)) && Shaped(s)
    ensures Inv(Next(s, WriteEnd(i)))
  {
    forall k | Oldest(s) <= k < |s.queued| ensures k % SLOTS != s.head { SlotIsFree(s, k); }
  }

  lemma BumpHeadKeeps(s: Sys, i: nat)
    requires Inv(s) && Enabled(s, BumpHead(i)) && Shaped(s)
    ensures Inv(Next(s, BumpHead(i)))
  {
    BumpIs(|s.queued|);
  }

  lemma PostUsedKeeps(s: Sys, i: nat)
    requires Inv(s) && Enabled(s, PostUsed(i)) && Shaped(s)
    ensures Inv(Next(s, PostUsed(i)))
  {
  }

  lemma ReadKeeps(s: Sys, t: Step)
    requires Inv(s) && Enabled(s, t) && Shaped(s) && (t.TryWaitUsed? || t.ReadBegin? || t.ReadEnd?)
    ensures Inv(Next(s, t))
  {
  }

  lemma BumpTailKeeps(s: Sys)
    requires Inv(s) && Enabled(s, BumpTail) && Shaped(s)
    ensures Inv(Next(s, BumpTail))
  {
    BumpIs(s.takes - 1);
    hide Bump;
  }

  lemma PostFreeKeeps(s: Sys)
    requires Inv(s) && Enabled(s, PostFree) && Shaped(s)
    ensures Inv(Next(s, PostFree))
  {
  }

  /** Every instruction of every thread keeps the invariant. */
  lemma NextKeeps(s: Sys, t: Step)
    requires Inv(s) && Enabled(s, t) && Shaped(s)
    ensures Inv(Next(s, t)) && Shaped(Next(s, t))
  {
    hide Inv, Enabled, Next;
    match t
    case WriteBegin(i) => WriteBeginKeeps(s, i); InvShaped(Next(s, t));
    case WriteEnd(i) => WriteEndKeeps(s, i); InvShaped(Next(s, t));
    case BumpHead(i) => BumpHeadKeeps(s, i); InvShaped(Next(s, t));
    case PostUsed(i) => PostUsedKeeps(s, i); InvShaped(Next(s, t));
    case TryLock(_, _) => LockStepsKeep(s, t); InvShaped(Next(s, t));
    case TryWaitFree(_) => LockStepsKeep(s, t); InvShaped(Next(s, t));
    case Unlock(_) => LockStepsKeep(s, t); InvShaped(Next(s, t));
    case BumpTail => BumpTailKeeps(s); InvShaped(Next(s, t));
    case PostFree => PostFreeKeeps(s); InvShaped(Next(s, t));
    case _ => ReadKeeps(s, t); InvShaped(Next(s, t));
  }

  // ---------------------------------------------------------------- runs

  ghost predicate Init(s: Sys) {
    && |s.cells| == SLOTS && s.head == 0 && s.tail == 0 && s.used == 0 && s.free == SLOTS && s.lock.None?
    && (forall i :: 0 <= i < |s.producers| ==> s.producers[i].Outside?) && s.consumer.Idle?
    && s.queued == [] && s.takes == 0 && s.delivered == []
  }

  ghost predicate Run(ss: seq<Sys>, ts: seq<Step>) {
    && |ss| == |ts| + 1 && Init(ss[0])
    && forall i :: 0 <= i < |ts| ==> Shaped(ss[i]) && Enabled(ss[i], ts[i]) && ss[i + 1] == Next(ss[i], ts[i])
  }

  lemma {:induction false} RunInv(ss: seq<Sys>, ts: seq<Step>, n: nat)
    requires Run(ss, ts) && n < |ss|
    ensures Inv(ss[n])
  {
    hide Next, Enabled;
    if n > 0 {
      RunInv(ss, ts, n - 1);
      hide Inv;
      NextKeeps(ss[n - 1], ts[n - 1]);
    }
  }

  /** The frames a pop could still be given: the queue as its users see it. */
  function Contents(s: Sys): seq<Frame>
    requires s.takes <= |s.queued|
  {
    s.queued[s.takes..]
  }

  /**
   * In every interleaving: no read is torn, pops deliver what was queued, in order, each once; at
   * most 64 frames are held, and the semaphores plus the operations in flight sum to 64.
   */
  lemma FifoInEveryRun(ss: seq<Sys>, ts: seq<Step>, n: nat)
    requires Run(ss, ts) && n < |ss|
    ensures var s := ss[n];
            && |s.delivered| <= s.takes <= |s.queued|
            && (forall k :: 0 <= k < |s.delivered| ==> s.delivered[k] == Whole(s.queued[k]))
            && |Contents(s)| <= SLOTS && s.used == |Contents(s)|
            && s.used + s.free + PushInFlight(s) + PopInFlight(s) == SLOTS
            && (s.consumer.Reading? && s.tail < |s.cells| ==> !s.consumer.torn && s.cells[s.tail].Whole?)
  {
    RunInv(ss, ts, n);
    hide Next, Enabled;
  }

  /**
   * Refinement of a bounded FIFO, step by step: posting used_sem appends the pusher's frame, a
   * successful wait on used_sem removes the oldest one, every other instruction is invisible.
   * The wait on used_sem fails exactly on an empty queue; the wait on free_sem fails exactly
   * when queued frames and the pop in flight take up all 64 slots.
   */
  lemma RefinesFifo(s: Sys, t: Step)
    requires Inv(s) && Enabled(s, t) && Shaped(s)
    ensures var s' := Next(s, t);
            && s.takes <= |s.queued| && s'.takes <= |s'.queued|
            && match t
               case PostUsed(i) => Contents(s') == Contents(s) + [s.producers[i].frame] && |Contents(s)| < SLOTS
               case TryWaitUsed =>
                 if Contents(s) == [] then s' == s
                 else Contents(s) == [s.queued[s.takes]] + Contents(s') && s'.consumer.Taking?
               case TryWaitFree(i) =>
                 Contents(s') == Contents(s)
                 && (s'.producers[i] == Leaving(false) <==> |Contents(s)| + PopInFlight(s) == SLOTS)
               case _ => Contents(s') == Contents(s)
  {
    hide CellsOk, IndicesOk, DeliveryOk;
  }
}
