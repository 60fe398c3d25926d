/** The CAN frame queue in place, for one call at a time. */
module CanQueueImpl {
  import opened Common
  import opened CanQueue

  datatype Rc = Ok | MutexLock | QueueFull | QueueEmpty

  class Queue {
    const frame: array<Frame>
    var head: nat
    var tail: nat
    var used: nat
    var free: nat
    /** The push mutex, held by a producer elsewhere. */
    var locked: bool

    ghost predicate Valid()
      reads this
    {
      && frame.Length == SLOTS && head < SLOTS && tail < SLOTS && used + free == SLOTS
      && head == Wrap(tail + used, SLOTS)
    }

    /** The queued frames, oldest first. */
    ghost function Contents(): seq<Frame>
      requires Valid()
      reads this, frame
    {
      Window(frame[..], tail, used)
    }

    constructor ()
      ensures Valid() && fresh(frame) && Contents() == [] && !locked
    {
      frame := new Frame[SLOTS](_ => Frame(0, []));
      head, tail, used, free, locked := 0, 0, 0, SLOTS, false;
    }

    method Push(f: Frame) returns (rc: Rc)
      requires Valid()
      modifies `head, `used, `free, frame
      ensures Valid()
      ensures rc == if locked then MutexLock else if |old(Contents())| == SLOTS then QueueFull else Ok
      ensures Contents() == if rc.Ok? then old(Contents()) + [f] else old(Contents())
    {
      if locked {
        return MutexLock;
      }
      if free == 0 {
        return QueueFull;
      }
      free := free - 1;
      WindowPush(frame[..], tail, used, f);
      frame[head] := f;
      head := head + 1;
      if head >= SLOTS {
        head := 0;
      }
      used := used + 1;
      return Ok;
    }

    method Pop() returns (rc: Rc, f: Option<Frame>)
      requires Valid()
      modifies `tail, `used, `free
      ensures Valid()
      ensures if old(Contents()) == [] then rc == QueueEmpty && f.None? && Contents() == []
              else rc == Ok && f.Some? && old(Contents()) == [f.value] + Contents()
    {
      if used == 0 {
        return QueueEmpty, None;
      }
      WindowPop(frame[..], tail, used);
      used := used - 1;
      f := Some(frame[tail]);
      tail := tail + 1;
      if tail >= SLOTS {
        tail := 0;
      }
      free := free + 1;
      rc := Ok;
    }

    method Count() returns (n: nat)
      requires Valid()
      ensures n == |Contents()|
    {
      n := used;
    }
  }
}
