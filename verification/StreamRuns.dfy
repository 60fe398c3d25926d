/**
 * The producer and one streaming client in any interleaving.  The client's critical sections
 * and its writes to the network are separate steps; whether a write succeeds, memory is
 * available or the client gives up is open.
 */
module StreamRuns {
  import opened Common
  import opened Bytes
  import opened AnnexB
  import opened Avcc
  import opened StreamRing

  datatype Phase = AwaitConfig | AwaitKey | Ready | Sending(entry: Entry, fragment: seq<Byte>) | Closed

  /** Client state; `joined`, `taken` and `wire` record what it has consumed and sent so far. */
  datatype Client = Client(
    phase: Phase, epoch: nat, cursor: int, sent: nat, origin: nat, lastTs: nat, default: nat,
    joined: nat, taken: seq<Entry>, wire: seq<seq<Byte>>)

  datatype System = System(s: Stream, log: seq<Entry>, c: Client)

  datatype Step =
    | Config(w: nat, h: nat, fps: nat, sps: seq<Byte>, pps: seq<Byte>)
    | Frame(data: seq<Byte>, key: bool, ts: nat, mallocOk: bool)
    | End
    | Stop
    | SeeConfig
    | Join
    | Take(memOk: bool)
    | Sent(ok: bool)
    | Close

  ghost predicate Enabled(x: System, t: Step) {
    match t
    case SeeConfig => x.c.phase.AwaitConfig? && x.s.epoch != 0 && x.s.sps != [] && x.s.pps != []
    case Join => x.c.phase.AwaitKey?
    case Take(_) => x.c.phase.Ready?
    case Sent(_) => x.c.phase.Sending?
    case _ => true
  }

  function Joined(x: System): System
    requires RingShaped(x.s)
  {
    if x.s.stop || x.s.epoch != x.c.epoch then x.(c := x.c.(phase := Closed))
    else
      var w := Window(x.s.ring, x.s.head, x.s.count);
      var k := NewestKey(w);
      if k.None? then x
      else
        var e := w[k.value];
        x.(c := x.c.(phase := Ready, cursor := e.number - 1, origin := e.ts, joined := e.number))
  }

  predicate RingShaped(s: Stream) {
    |s.ring| == RING_LEN && s.head < RING_LEN && s.count <= RING_LEN && s.count <= s.nextSeq
  }

  function Took(x: System, memOk: bool): System
    requires RingShaped(x.s) && x.c.cursor >= -1
  {
    match Look(x.s, x.c.epoch, x.c.cursor)
    case Gone => x.(c := x.c.(phase := Closed))
    case Nothing => x
    case Have(e) =>
      if Sample(e.data) == [] then
        x.(c := x.c.(cursor := x.c.cursor + 1, lastTs := e.ts, taken := x.c.taken + [e]))
      else if !memOk then x.(c := x.c.(phase := Closed, lastTs := e.ts))
      else
        x.(c := x.c.(phase := Sending(e, FragmentOf(x.c.sent + 1, e, x.c.lastTs, x.c.origin, x.c.default)),
                     sent := x.c.sent + 1, lastTs := e.ts))
  }

  function Delivered(x: System, ok: bool): System
    requires x.c.phase.Sending?
  {
    if !ok then x.(c := x.c.(phase := Closed))
    else
      x.(c := x.c.(phase := Ready, cursor := x.c.cursor + 1, taken := x.c.taken + [x.c.phase.entry],
                   wire := x.c.wire + [x.c.phase.fragment]))
  }

  function Next(x: System, t: Step): System
    requires RingShaped(x.s) && x.c.cursor >= -1 && Enabled(x, t)
  {
    match t
    case Config(w, h, fps, sps, pps) => x.(s := PushConfig(x.s, w, h, fps, sps, pps))
    case Frame(data, key, ts, mallocOk) =>
      x.(s := PushFrame(x.s, data, key, ts, mallocOk), log := LogAfter(x.s, x.log, data, key, ts, mallocOk))
    case End => x.(s := PushEnd(x.s))
    case Stop => x.(s := Shutdown(x.s))
    case SeeConfig =>
      x.(c := x.c.(phase := AwaitKey, epoch := x.s.epoch, default := if x.s.fps > 0 then 90000 / x.s.fps else 3000))
    case Join => Joined(x)
    case Take(memOk) => Took(x, memOk)
    case Sent(ok) => Delivered(x, ok)
    case Close => x.(c := x.c.(phase := Closed))
  }

  // ---------------------------------------------------------------- invariant

  /** The client has consumed exactly the frames from its key frame on, each once and unaltered. */
  ghost predicate ClientOk(c: Client, log: seq<Entry>) {
    && c.cursor >= -1
    && match c.phase
       case AwaitConfig => Untouched(c)
       case AwaitKey => Untouched(c)
       case Ready => InStep(c, log) && c.sent == |c.wire|
       case Sending(e, f) =>
         && InStep(c, log) && c.sent == |c.wire| + 1 && c.cursor + 1 < |log|
         && e == log[c.cursor + 1] && Sample(e.data) != [] && c.lastTs == e.ts
         && f == FragmentOf(|c.wire| + 1, e, LastTs(c.taken), c.origin, c.default)
       case Closed => Consumed(c, log)
  }

  ghost predicate Untouched(c: Client) {
    c.taken == [] && c.wire == [] && c.sent == 0 && c.lastTs == 0
  }

  ghost predicate Consumed(c: Client, log: seq<Entry>) {
    && (c.taken == [] ==> c.wire == [])
    && (c.taken != [] ==>
          && c.joined + |c.taken| <= |log| && c.taken == log[c.joined..c.joined + |c.taken|]
          && log[c.joined].key)
    && c.wire == Wire(c.taken, c.origin, c.default)
  }

  ghost predicate InStep(c: Client, log: seq<Entry>) {
    && Consumed(c, log)
    && c.joined < |log| && log[c.joined].key && c.cursor == c.joined + |c.taken| - 1
    && (c.phase.Ready? ==> c.lastTs == LastTs(c.taken))
  }

  ghost predicate Inv(x: System) {
    RingOk(x.s, x.log) && ClientOk(x.c, x.log)
  }

  /** What holds of a log holds of any extension. */
  lemma ClientOkGrows(c: Client, log: seq<Entry>, e: Entry)
    requires ClientOk(c, log)
    ensures ClientOk(c, log + [e])
  {
    hide Wire, FragmentOf, SampleFrom;
    if c.taken != [] && !c.phase.AwaitConfig? && !c.phase.AwaitKey? {
      assert (log + [e])[c.joined..c.joined + |c.taken|] == log[c.joined..c.joined + |c.taken|];
    }
  }

  lemma JoinedOk(x: System)
    requires Inv(x) && x.c.phase.AwaitKey?
    ensures Inv(Joined(x))
  {
    hide Wire, FragmentOf, SampleFrom;
    var w := Window(x.s.ring, x.s.head, x.s.count);
    var k := NewestKey(w);
    assert Wire([], x.c.origin, x.c.default) == [] && Wire([], Joined(x).c.origin, x.c.default) == [] by { NoWire(x); }
    if k.Some? {
      assert w[k.value] == x.log[|x.log| - x.s.count + k.value];
    }
  }

  lemma NoWire(x: System)
    ensures forall origin, default :: Wire([], origin, default) == []
  {
  }

  lemma WireStep(es: seq<Entry>, e: Entry, origin: nat, default: nat)
    ensures Wire(es + [e], origin, default)
         == if Sample(e.data) == [] then Wire(es, origin, default)
            else Wire(es, origin, default)
                 + [FragmentOf(|Wire(es, origin, default)| + 1, e, LastTs(es), origin, default)]
  {
    hide FragmentOf, SampleFrom;
    assert (es + [e])[..|es|] == es;
  }

  lemma TakenGrows(c: Client, log: seq<Entry>, e: Entry)
    requires Consumed(c, log) && c.joined + |c.taken| < |log| && log[c.joined].key
    requires e == log[c.joined + |c.taken|]
    ensures c.taken + [e] == log[c.joined..c.joined + |c.taken| + 1]
  {
    hide Wire;
  }

  lemma TookOk(x: System, memOk: bool)
    requires Inv(x) && x.c.phase.Ready?
    ensures Inv(Took(x, memOk))
  {
    hide Wire, FragmentOf, SampleFrom, RingOk;
    assert RingShaped(x.s) by { ShapedRing(x.s, x.log); }
    LookIsLog(x.s, x.log, x.c.epoch, x.c.cursor);
    var sight := Look(x.s, x.c.epoch, x.c.cursor);
    hide Look;
    if sight.Have? {
      var e := sight.entry;
      WireStep(x.c.taken, e, x.c.origin, x.c.default);
      TakenGrows(x.c, x.log, e);
    }
  }

  lemma ShapedRing(s: Stream, log: seq<Entry>)
    requires RingOk(s, log)
    ensures RingShaped(s)
  {
  }

  lemma DeliveredOk(x: System, ok: bool)
    requires Inv(x) && x.c.phase.Sending?
    ensures Inv(Delivered(x, ok))
  {
    hide Wire, FragmentOf, SampleFrom, RingOk;
    WireStep(x.c.taken, x.c.phase.entry, x.c.origin, x.c.default);
    TakenGrows(x.c, x.log, x.c.phase.entry);
  }

  lemma WaitingOk(x: System, t: Step)
    requires Inv(x) && Enabled(x, t) && (t.SeeConfig? || t.Close?) && RingShaped(x.s)
    ensures ClientOk(Next(x, t).c, x.log)
  {
    hide Wire, FragmentOf, SampleFrom, RingOk;
    NoWire(x);
  }

  lemma ProducerOk(x: System, t: Step)
    requires RingOk(x.s, x.log) && ClientOk(x.c, x.log) && Enabled(x, t) && RingShaped(x.s)
    requires x.c.cursor >= -1 && (t.Config? || t.Frame? || t.End? || t.Stop?)
    ensures Inv(Next(x, t)) && x.log <= Next(x, t).log
  {
    hide ClientOk, Walk, CollectedSet, RingOk, Look, PushFrame;
    match t
    case Config(_, _, _, _, _) => ClearedOk(x.s, x.log, Next(x, t).s);
    case Frame(data, key, ts, mallocOk) =>
      PushFrameOk(x.s, x.log, data, key, ts, mallocOk);
      ClientOkGrows(x.c, x.log, Entry(data, x.s.nextSeq, ts % TWO32, key));
    case End => ClearedOk(x.s, x.log, Next(x, t).s);
    case Stop => RingOkAside(x.s, Next(x, t).s, x.log);
  }

  /** Every step of producer and client keeps the invariant, and the log only grows. */
  lemma NextOk(x: System, t: Step)
    requires Inv(x) && RingShaped(x.s) && x.c.cursor >= -1 && Enabled(x, t)
    ensures Inv(Next(x, t)) && x.log <= Next(x, t).log
  {
    hide Next, Joined, Took, Delivered;
    match t
    case Join => JoinedOk(x); NextIsClient(x, t);
    case Take(memOk) => TookOk(x, memOk); NextIsClient(x, t);
    case Sent(ok) => DeliveredOk(x, ok); NextIsClient(x, t);
    case SeeConfig => WaitingOk(x, t); NextIsClient(x, t);
    case Close => WaitingOk(x, t); NextIsClient(x, t);
    case _ => ProducerOk(x, t);
  }

  lemma NextIsClient(x: System, t: Step)
    requires Inv(x) && RingShaped(x.s) && Enabled(x, t)
    ensures match t
            case Join => Next(x, t) == Joined(x) && x.log <= Joined(x).log
            case Take(memOk) => Next(x, t) == Took(x, memOk) && x.log <= Took(x, memOk).log
            case Sent(ok) => Next(x, t) == Delivered(x, ok) && x.log <= Delivered(x, ok).log
            case SeeConfig => Next(x, t).s == x.s && Next(x, t).log == x.log
            case Close => Next(x, t).s == x.s && Next(x, t).log == x.log
            case _ => true
  {
    hide Look, NewestKey, FragmentOf, SampleFrom, Wire, RingOk;
  }

  // ---------------------------------------------------------------- runs

  ghost predicate Init(x: System) {
    && x.s.ring == seq(RING_LEN, _ => NO_ENTRY) && x.s.head == 0 && x.s.count == 0 && x.s.nextSeq == 0
    && x.log == [] && x.c.phase.AwaitConfig? && x.c.cursor == -1 && x.c.default == 0 && Untouched(x.c)
  }

  ghost predicate Run(xs: seq<System>, ts: seq<Step>) {
    && |xs| == |ts| + 1 && Init(xs[0])
    && forall i :: 0 <= i < |ts| ==>
         RingShaped(xs[i].s) && xs[i].c.cursor >= -1 && Enabled(xs[i], ts[i]) && xs[i + 1] == Next(xs[i], ts[i])
  }

  lemma {:induction false} RunOk(xs: seq<System>, ts: seq<Step>, n: nat)
    requires Run(xs, ts) && n < |xs|
    ensures Inv(xs[n])
  {
    hide Next, Enabled, ClientOk;
    if n == 0 {
      StartOk(xs[0]);
    } else {
      RunOk(xs, ts, n - 1);
      NextOk(xs[n - 1], ts[n - 1]);
    }
  }

  /** Every queued frame is within limits, and so is a client's fallback duration. */
  lemma {:induction false} RunBounds(xs: seq<System>, ts: seq<Step>, n: nat)
    requires Run(xs, ts) && n < |xs|
    ensures Queueable(xs[n].log) && xs[n].c.default <= 90000
  {
    if n > 0 {
      RunBounds(xs, ts, n - 1);
      StepBounds(xs[n - 1], ts[n - 1]);
      hide Next, Enabled, Queueable;
    }
  }

  lemma StepBounds(x: System, t: Step)
    requires RingShaped(x.s) && x.c.cursor >= -1 && Enabled(x, t)
    requires Queueable(x.log) && x.c.default <= 90000
    ensures Queueable(Next(x, t).log) && Next(x, t).c.default <= 90000
  {
    hide FragmentOf, SampleFrom, Look, NewestKey, Walk, CollectedSet;
  }

  lemma StartOk(x: System)
    requires Init(x)
    ensures Inv(x)
  {
  }

  /**
   * In every interleaving the frames a client has consumed carry consecutive numbers, start at a
   * key frame, and are the frames queued under those numbers; what went over the wire are their
   * fragments, numbered from 1 without a gap.
   */
  lemma ClientSeesConsecutive(xs: seq<System>, ts: seq<Step>, n: nat)
    requires Run(xs, ts) && n < |xs|
    ensures var x := xs[n];
            && (x.c.taken != [] ==> x.c.taken[0].key && x.c.taken[0].number == x.c.joined)
            && (forall i :: 0 <= i < |x.c.taken| ==>
                  && x.c.joined + i < |x.log|
                  && x.c.taken[i] == x.log[x.c.joined + i] && x.c.taken[i].number == x.c.joined + i)
            && x.c.wire == Wire(x.c.taken, x.c.origin, x.c.default)
  {
    RunOk(xs, ts, n);
    hide Wire, Next, Enabled;
    NoWire(xs[n]);
  }

  /** Number q, if it is among the newest `count`, is at its circular place and the frame queued under it. */
  ghost predicate HoldsIfRecent(s: Stream, log: seq<Entry>, q: nat)
    requires s.count <= s.nextSeq == |log|
  {
    s.nextSeq - s.count <= q < s.nextSeq ==>
      && |s.ring| == RING_LEN
      && s.ring[(s.head + (q - (s.nextSeq - s.count))) % RING_LEN] == log[q]
      && log[q].number == q
  }

  /** In every state the ring holds exactly the newest `count` frames of the log, each at its place. */
  lemma RingHoldsNewest(xs: seq<System>, ts: seq<Step>, n: nat, q: nat)
    requires Run(xs, ts) && n < |xs|
    ensures var x := xs[n];
            x.s.count <= x.s.nextSeq == |x.log| && x.s.count <= RING_LEN && HoldsIfRecent(x.s, x.log, q)
  {
    RunOk(xs, ts, n);
    hide Run, ClientOk, RingOk, HoldsIfRecent;
    RingNewest(xs[n].s, xs[n].log, q);
  }

  lemma RingNewest(s: Stream, log: seq<Entry>, q: nat)
    requires RingOk(s, log)
    ensures s.count <= s.nextSeq == |log| && s.count <= RING_LEN && HoldsIfRecent(s, log, q)
  {
    if s.nextSeq - s.count <= q < s.nextSeq {
      var k := q - (s.nextSeq - s.count);
      WrapIsMod(s.head + k, RING_LEN);
      assert Window(s.ring, s.head, s.count)[k] == log[|log| - s.count..][k];
    }
  }

  // ---------------------------------------------------------------- sessions

  datatype NewFrame = NewFrame(data: seq<Byte>, key: bool, ts: nat)

  function PushAll(s: Stream, fs: seq<NewFrame>): (r: Stream)
    requires |s.ring| == RING_LEN
    ensures |r.ring| == RING_LEN
  {
    if fs == [] then s
    else
      var f := fs[|fs| - 1];
      PushFrame(PushAll(s, fs[..|fs| - 1]), f.data, f.key, f.ts, true)
  }

  /** Frames pushed to a fresh session: the ring holds the last 256 of them, or all. */
  lemma {:induction false} PushAllOk(s: Stream, log: seq<Entry>, fs: seq<NewFrame>) returns (log': seq<Entry>)
    requires RingOk(s, log) && s.count == 0 && !s.stop && s.epoch != 0
    requires forall i :: 0 <= i < |fs| ==> 0 < |fs[i].data| <= MAX_FRAME
    ensures var r := PushAll(s, fs);
            && RingOk(r, log') && |log'| == |log| + |fs| && !r.stop && r.epoch == s.epoch
            && r.count == if |fs| < RING_LEN then |fs| else RING_LEN
  {
    if fs == [] {
      log' := log;
    } else {
      var f := fs[|fs| - 1];
      var before := PushAllOk(s, log, fs[..|fs| - 1]);
      var r := PushAll(s, fs[..|fs| - 1]);
      hide Walk, CollectedSet;
      log' := LogAfter(r, before, f.data, f.key, f.ts, true);
      PushFrameOk(r, before, f.data, f.key, f.ts, true);
      hide RingOk;
    }
  }

  lemma Restarted(s: Stream, log: seq<Entry>, w: nat, h: nat, fps: nat, sps: seq<Byte>, pps: seq<Byte>)
    requires RingOk(s, log) && !s.stop
    ensures var s1 := PushConfig(PushEnd(s), w, h, fps, sps, pps);
            RingOk(s1, log) && s1.count == 0 && s1.epoch == 1 && !s1.stop && s.nextSeq == |log|
  {
    hide Window;
    ClearedOk(s, log, PushEnd(s));
    ClearedOk(PushEnd(s), log, PushConfig(PushEnd(s), w, h, fps, sps, pps));
  }

  /** What a cursor of before the session finds after the frames. */
  lemma FreshLook(s: Stream, log: seq<Entry>, fs: seq<NewFrame>, epoch: nat, cursor: int)
    requires RingOk(s, log) && s.count == 0 && !s.stop && s.epoch != 0 && -1 <= cursor < |log|
    requires forall i :: 0 <= i < |fs| ==> 0 < |fs[i].data| <= MAX_FRAME
    ensures |s.ring| == RING_LEN && RingShaped(PushAll(s, fs))
    ensures Look(PushAll(s, fs), epoch, cursor).Have?
            <==> epoch == s.epoch && cursor + 1 == |log| && 1 <= |fs| <= RING_LEN
  {
    var r := PushAll(s, fs);
    var after := PushAllOk(s, log, fs);
    ShapedRing(r, after);
    LookIsLog(r, after, epoch, cursor);
    assert |s.ring| == RING_LEN && r.nextSeq == |after|;
    hide RingOk, PushAll;
  }

  /** A client in the main loop has not read beyond what was queued. */
  lemma CursorWithin(x: System)
    requires Inv(x) && x.c.phase.Ready?
    ensures -1 <= x.c.cursor < |x.log|
  {
    hide Wire, RingOk;
  }

  /**
   * Ending a session resets the session number, starting one increments it, so numbers recur:
   * after an end, a start and any number of frames of the new session, a client of the old session
   * goes on reading if and only if its session was number 1, it had read everything, and between 1
   * and 256 frames were pushed.
   */
  lemma OldClientReadsOnIff(x: System, w: nat, h: nat, fps: nat, sps: seq<Byte>, pps: seq<Byte>, fs: seq<NewFrame>)
    requires Inv(x) && x.c.phase.Ready? && x.s.epoch == x.c.epoch && x.s.epoch != 0 && !x.s.stop
    requires forall i :: 0 <= i < |fs| ==> 0 < |fs[i].data| <= MAX_FRAME
    ensures var s1 := PushConfig(PushEnd(x.s), w, h, fps, sps, pps);
            && |s1.ring| == RING_LEN && RingShaped(PushAll(s1, fs)) && x.c.cursor >= -1
            && (Look(PushAll(s1, fs), x.c.epoch, x.c.cursor).Have?
                <==> x.c.epoch == 1 && x.c.cursor + 1 == x.s.nextSeq && 1 <= |fs| <= RING_LEN)
  {
    var s1 := PushConfig(PushEnd(x.s), w, h, fps, sps, pps);
    CursorWithin(x);
    hide ClientOk, PushAll, RingOk, Look, PushConfig, PushEnd, RingShaped;
    Restarted(x.s, x.log, w, h, fps, sps, pps);
    FreshLook(s1, x.log, fs, x.c.epoch, x.c.cursor);
  }

  // ---------------------------------------------------------------- a run across two sessions

  function NoEntries(): (ring: seq<Entry>)
    ensures |ring| == RING_LEN && forall i :: 0 <= i < RING_LEN ==> ring[i] == NO_ENTRY
  {
    seq(RING_LEN, _ => NO_ENTRY)
  }

  const FIRST: Entry := Entry([9], 0, 5, true)
  const SECOND: Entry := Entry([9], 1, 7, true)

  function StreamOf(ring: seq<Entry>, head: nat, count: nat, next: nat, epoch: nat, nal: seq<Byte>): Stream {
    Stream(ring, head, count, next, epoch, false, 1, 1, 30, nal, nal, next, 0)
  }

  function ReadyAt(cursor: int, last: nat, taken: seq<Entry>): Client {
    Client(Ready, 1, cursor, 0, 5, last, 3000, 0, taken, [])
  }

  const WAITING: Client := Client(AwaitConfig, 0, -1, 0, 0, 0, 0, 0, [], [])

  /** A frame is streamed to a client, the session ends, and another one with its first frame follows. */
  function StepAt(n: nat): Step
    requires n < 9
  {
    match n
    case 0 => Config(1, 1, 30, [1], [1])
    case 1 => Frame([9], true, 5, true)
    case 2 => SeeConfig
    case 3 => Join
    case 4 => Take(true)
    case 5 => End
    case 6 => Config(1, 1, 30, [2], [2])
    case 7 => Frame([9], true, 7, true)
    case _ => Take(true)
  }

  function StateAt(n: nat): System
    requires n <= 9
  {
    match n
    case 0 => System(Stream(NoEntries(), 0, 0, 0, 0, false, 0, 0, 0, [], [], 0, 0), [], WAITING)
    case 1 => System(StreamOf(NoEntries(), 0, 0, 0, 1, [1]), [], WAITING)
    case 2 => System(StreamOf(NoEntries()[0 := FIRST], 0, 1, 1, 1, [1]), [FIRST], WAITING)
    case 3 => System(StreamOf(NoEntries()[0 := FIRST], 0, 1, 1, 1, [1]), [FIRST],
                     Client(AwaitKey, 1, -1, 0, 0, 0, 3000, 0, [], []))
    case 4 => System(StreamOf(NoEntries()[0 := FIRST], 0, 1, 1, 1, [1]), [FIRST], ReadyAt(-1, 0, []))
    case 5 => System(StreamOf(NoEntries()[0 := FIRST], 0, 1, 1, 1, [1]), [FIRST], ReadyAt(0, 5, [FIRST]))
    case 6 => System(StreamOf(NoEntries()[0 := FIRST], 1, 0, 1, 0, [1]), [FIRST], ReadyAt(0, 5, [FIRST]))
    case 7 => System(StreamOf(NoEntries()[0 := FIRST], 1, 0, 1, 1, [2]), [FIRST], ReadyAt(0, 5, [FIRST]))
    case 8 => System(StreamOf(NoEntries()[0 := FIRST][1 := SECOND], 1, 1, 2, 1, [2]), [FIRST, SECOND],
                     ReadyAt(0, 5, [FIRST]))
    case _ => System(StreamOf(NoEntries()[0 := FIRST][1 := SECOND], 1, 1, 2, 1, [2]), [FIRST, SECOND],
                     ReadyAt(1, 7, [FIRST, SECOND]))
  }

  ghost predicate StepsTo(x: System, t: Step, y: System) {
    RingShaped(x.s) && x.c.cursor >= -1 && Enabled(x, t) && y == Next(x, t)
  }

  lemma ProducerSteps(n: nat)
    requires n < 3 || 5 <= n < 8
    ensures StepsTo(StateAt(n), StepAt(n), StateAt(n + 1))
  {
    hide Walk, FragmentOf, Wire;
    assert [] + [FIRST] == [FIRST] && [FIRST] + [SECOND] == [FIRST, SECOND];
  }

  lemma ClientSteps(n: nat)
    requires n == 3 || n == 4 || n == 8
    ensures StepsTo(StateAt(n), StepAt(n), StateAt(n + 1))
  {
    hide FragmentOf, Wire;
    assert Sample([9]) == [];
    assert [] + [FIRST] == [FIRST] && [FIRST] + [SECOND] == [FIRST, SECOND];
    if n == 3 {
      var s := StateAt(3).s;
      var w := Window(s.ring, 0, 1);
      assert w == [FIRST] && NewestKey(w) == Some(0);
    }
  }

  /**
   * A client that is up to date when its session ends reads on in the next session without noticing:
   * it joined in step 3, the session ended in step 5, and its second frame belongs to the new session.
   */
  lemma OldClientReadsOn() returns (xs: seq<System>, ts: seq<Step>)
    ensures Run(xs, ts) && |ts| == 9 && ts[5] == End && ts[6].Config?
    ensures xs[5].c.taken == [FIRST] && xs[9].c.taken == [FIRST, SECOND] && xs[9].c.phase == Ready
    ensures xs[7].log == [FIRST] && xs[8].log == [FIRST, SECOND]
  {
    xs := seq(10, n requires 0 <= n < 10 => StateAt(n));
    ts := seq(9, n requires 0 <= n < 9 => StepAt(n));
    assert NoEntries() == seq(RING_LEN, _ => NO_ENTRY);
    assert Init(xs[0]);
    hide RingShaped, Enabled, Next, Init;
    forall i | 0 <= i < 9 ensures StepsTo(xs[i], ts[i], xs[i + 1]) {
      if i == 3 || i == 4 || i == 8 { ClientSteps(i); } else { ProducerSteps(i); }
    }
    forall i | 0 <= i < 9
      ensures RingShaped(xs[i].s) && xs[i].c.cursor >= -1 && Enabled(xs[i], ts[i]) && xs[i + 1] == Next(xs[i], ts[i])
    {
      assert StepsTo(xs[i], ts[i], xs[i + 1]);
    }
  }

  // ---------------------------------------------------------------- what each step does for a client

  /** Frame q is among those the ring still holds. */
  ghost predicate Held(x: System, q: nat) {
    |x.log| - x.s.count <= q < |x.log|
  }

  /** A client is turned away: shut down, or its session is over. */
  predicate TurnedAway(x: System) { x.s.stop || x.s.epoch != x.c.epoch }

  /**
   * A client that looks for a key frame is turned away, or starts at the newest one held, or waits
   * because none is held.
   */
  lemma JoinsNewestKey(x: System)
    requires Inv(x) && x.c.phase.AwaitKey?
    ensures RingShaped(x.s)
    ensures var c := Joined(x).c;
            && (c.phase.Closed? <==> TurnedAway(x))
            && (c.phase.AwaitKey? <==> !TurnedAway(x) && forall q: nat :: Held(x, q) ==> !x.log[q].key)
            && (c.phase.Ready? ==>
                  && Held(x, c.joined) && x.log[c.joined].key && c.origin == x.log[c.joined].ts
                  && c.cursor == c.joined - 1
                  && forall q: nat :: Held(x, q) && x.log[q].key ==> q <= c.joined)
  {
    var w := Window(x.s.ring, x.s.head, x.s.count);
    var oldest := |x.log| - x.s.count;
    forall q: nat | Held(x, q) ensures x.log[q] == w[q - oldest] {
      assert x.log[oldest..][q - oldest] == x.log[q];
    }
    if NewestKey(w).Some? {
      var k := NewestKey(w).value;
      assert w[k] == x.log[oldest + k];
    }
    hide ClientOk;
  }

  /** The frame the client asks for has been pushed out of the ring. */
  ghost predicate Missed(x: System) { x.s.count > 0 && x.c.cursor + 1 < |x.log| - x.s.count }

  /** The frame the client asks for is there. */
  ghost predicate Available(x: System) { x.s.count > 0 && |x.log| - x.s.count <= x.c.cursor + 1 < |x.log| }

  lemma TookClosedIff(x: System, memOk: bool)
    requires Inv(x) && x.c.phase.Ready?
    ensures RingShaped(x.s) && x.c.cursor >= -1
    ensures Took(x, memOk).c.phase.Closed? <==>
              || TurnedAway(x) || Missed(x)
              || (!memOk && Available(x) && Sample(x.log[x.c.cursor + 1].data) != [])
  {
    LookIsLog(x.s, x.log, x.c.epoch, x.c.cursor);
    hide RingOk, ClientOk, FragmentOf, Sample, Look;
  }

  /**
   * A step closes a connection exactly for one of these reasons: the client leaves, is turned away,
   * has fallen behind the ring, has no memory for a fragment, or a write fails.
   */
  lemma ClosedIff(x: System, t: Step)
    requires Inv(x) && Enabled(x, t) && !x.c.phase.Closed?
    ensures RingShaped(x.s) && x.c.cursor >= -1
    ensures Next(x, t).c.phase.Closed? <==>
              match t
              case Close => true
              case Join => TurnedAway(x)
              case Take(memOk) =>
                || TurnedAway(x) || Missed(x)
                || (!memOk && Available(x) && Sample(x.log[x.c.cursor + 1].data) != [])
              case Sent(ok) => !ok
              case _ => false
  {
    ShapedRing(x.s, x.log);
    assert x.c.cursor >= -1;
    hide RingOk, ClientOk, PushConfig, PushFrame, LogAfter, PushEnd, Shutdown, RingShaped, Joined, Took, Sample;
    match t
    case Join => JoinsNewestKey(x);
    case Take(memOk) => TookClosedIff(x, memOk);
    case _ =>
  }

  /** A waiting frame is taken: one with picture data is on its way to the client, another is passed over. */
  lemma AvailableIsTaken(x: System)
    requires Inv(x) && x.c.phase.Ready? && !TurnedAway(x)
    ensures RingShaped(x.s) && x.c.cursor >= -1
    ensures Available(x) ==>
              var e := x.log[x.c.cursor + 1];
              if Sample(e.data) != [] then Took(x, true).c.phase.Sending? && Took(x, true).c.phase.entry == e
              else Took(x, true).c.phase.Ready? && Took(x, true).c.taken == x.c.taken + [e]
    ensures !Available(x) && !Missed(x) ==> Took(x, true) == x
  {
    LookIsLog(x.s, x.log, x.c.epoch, x.c.cursor);
    hide RingOk, ClientOk, FragmentOf, Sample, Look;
  }

  /** Shutting down is final, and every client that looks again is closed. */
  lemma {:induction false} StopIsFinal(xs: seq<System>, ts: seq<Step>, k: nat, n: nat)
    requires Run(xs, ts) && k < n < |xs| && ts[k].Stop?
    ensures xs[n].s.stop
    ensures n < |ts| && (ts[n].Join? || ts[n].Take?) ==> xs[n + 1].c.phase.Closed?
  {
    hide Look, FragmentOf, SampleFrom, NewestKey, Walk, CollectedSet;
    if n > k + 1 { StopIsFinal(xs, ts, k, n - 1); }
    assert Enabled(xs[n - 1], ts[n - 1]) && xs[n] == Next(xs[n - 1], ts[n - 1]);
    StopStays(xs[n - 1], ts[n - 1]);
    if n < |ts| && (ts[n].Join? || ts[n].Take?) {
      RunOk(xs, ts, n);
      ClosedIff(xs[n], ts[n]);
    }
  }

  lemma StopStays(x: System, t: Step)
    requires RingShaped(x.s) && x.c.cursor >= -1 && Enabled(x, t)
    ensures x.s.stop || t.Stop? ==> Next(x, t).s.stop
  {
    hide FragmentOf, SampleFrom, Look, NewestKey, Walk, CollectedSet;
  }

  /** A new session starts with an empty ring; it keeps each parameter set given of at most 64 bytes. */
  lemma ConfigStarts(s: Stream, log: seq<Entry>, w: nat, h: nat, fps: nat, sps: seq<Byte>, pps: seq<Byte>)
    requires RingOk(s, log)
    ensures var s' := PushConfig(s, w, h, fps, sps, pps);
            && RingOk(s', log) && s'.count == 0 && (s'.epoch - s.epoch - 1) % TWO32 == 0
            && (|sps| <= 64 ==> s'.sps == sps) && (|sps| > 64 ==> s'.sps == [])
            && (|pps| <= 64 ==> s'.pps == pps) && (|pps| > 64 ==> s'.pps == [])
  {
    ClearedOk(s, log, PushConfig(s, w, h, fps, sps, pps));
  }
}
