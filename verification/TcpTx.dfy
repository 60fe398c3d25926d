/**
 * The transmit side of the TCP server: a queue of packets, a partial-write buffer per client,
 * and the flush that sends what it can and sends packets of slow clients to the back of the queue.
 */
module TcpTx {
  import opened Bytes

  const MAX_CLIENTS: nat := 32
  const DEPTH: nat := 256
  const WBUF_SIZE: nat := 4096

  datatype Packet = Packet(idx: int, data: seq<Byte>)

  /**
   * A client table entry; fd is negative when nobody is connected.  The rest records the
   * connection's history: bytes the socket took, bytes addressed to it since it connected, bytes
   * that were queued for its table entry when it connected, and whether a send reported an error.
   */
  datatype Client = Client(
    fd: int, wbuf: seq<Byte>, sent: seq<Byte>, owed: seq<Byte>, inherited: seq<Byte>, failed: bool)

  const NO_CLIENT: Client := Client(-1, [], [], [], [], false)

  datatype SendResult = Took(n: nat) | WouldBlock | Failed

  /** The transmit state; `calls` counts send calls, whose results the environment chooses. */
  datatype Server = Server(clients: seq<Client>, count: nat, limit: nat, queue: seq<Packet>, calls: nat)

  // ---------------------------------------------------------------- sending

  /** Effect of one send call on a client with bytes waiting; a socket takes at most what it is offered. */
  function Send(c: Client, r: SendResult): Client {
    match r
    case Took(n) =>
      var k := if n <= |c.wbuf| then n else |c.wbuf|;
      c.(wbuf := c.wbuf[k..], sent := c.sent + c.wbuf[..k])
    case WouldBlock => c
    case Failed => c.(wbuf := [], failed := true)
  }

  predicate Waiting(c: Client) { c.fd >= 0 && c.wbuf != [] }

  /** First loop of the flush: push on what each client still has to send. */
  function DrainAt(s: Server, i: nat, env: nat -> SendResult): Server
    requires i < |s.clients|
  {
    var c := s.clients[i];
    if Waiting(c) then s.(clients := s.clients[i := Send(c, env(s.calls))], calls := s.calls + 1) else s
  }

  function DrainUpTo(s: Server, n: nat, env: nat -> SendResult): (s': Server)
    requires n <= |s.clients|
    ensures |s'.clients| == |s.clients| && s'.queue == s.queue && s'.count == s.count && s'.limit == s.limit
  {
    if n == 0 then s else DrainAt(DrainUpTo(s, n - 1, env), n - 1, env)
  }

  predicate Addressable(s: Server, idx: int) {
    0 <= idx < |s.clients| && idx < s.count && s.clients[idx].fd >= 0
  }

  /** Second loop, one packet: drop it, send it to the back, or hand it to its client's socket. */
  function PassHead(s: Server, env: nat -> SendResult): (s': Server)
    ensures |s'.clients| == |s.clients| && s'.count == s.count && s'.limit == s.limit
  {
    if s.queue == [] then s
    else
      var p := s.queue[0];
      if !Addressable(s, p.idx) then s.(queue := s.queue[1..])
      else
        var c := s.clients[p.idx];
        if c.wbuf != [] then s.(queue := s.queue[1..] + [p])
        else
          s.(queue := s.queue[1..], clients := s.clients[p.idx := Send(c.(wbuf := p.data), env(s.calls))],
             calls := s.calls + 1)
  }

  function Pass(s: Server, n: nat, env: nat -> SendResult): (s': Server)
    ensures |s'.clients| == |s.clients| && s'.count == s.count && s'.limit == s.limit
  {
    if n == 0 then s else PassHead(Pass(s, n - 1, env), env)
  }

  function Flush(s: Server, env: nat -> SendResult): Server
    requires s.count <= |s.clients|
  {
    var s1 := DrainUpTo(s, s.count, env);
    Pass(s1, |s1.queue|, env)
  }

  // ---------------------------------------------------------------- other operations

  predicate Pushable(s: Server, data: seq<Byte>) {
    0 < |data| <= WBUF_SIZE && |s.queue| < DEPTH
  }

  function Owing(s: Server, idx: int, data: seq<Byte>): seq<Client> {
    if 0 <= idx < |s.clients| && s.clients[idx].fd >= 0
    then s.clients[idx := s.clients[idx].(owed := s.clients[idx].owed + data)]
    else s.clients
  }

  function Push(s: Server, idx: int, data: seq<Byte>): Server {
    if Pushable(s, data) then s.(queue := s.queue + [Packet(idx, data)], clients := Owing(s, idx, data)) else s
  }

  /** Most clients allowed, within the table. */
  function Limit(s: Server): nat {
    if s.limit == 0 || s.limit > MAX_CLIENTS then MAX_CLIENTS else s.limit
  }

  /** The first free entry below the limit, if any. */
  function FreeIndex(cs: seq<Client>, from: nat, limit: nat): (i: nat)
    requires limit <= |cs|
    ensures from <= limit ==> from <= i <= limit
    ensures from <= i < limit ==> cs[i].fd == -1
    ensures forall j :: from <= j < i && j < limit ==> cs[j].fd != -1
    decreases limit - from
  {
    if from >= limit then from else if cs[from].fd == -1 then from else FreeIndex(cs, from + 1, limit)
  }

  /** A new connection finds the packets still queued for its table entry waiting for it. */
  function Add(s: Server, fd: nat): Server
    requires |s.clients| == MAX_CLIENTS
  {
    var i := FreeIndex(s.clients, 0, Limit(s));
    if i >= Limit(s) then s
    else
      s.(clients := s.clients[i := Client(fd, [], [], [], Pending(s.queue, i), false)],
         count := if i >= s.count then i + 1 else s.count)
  }

  function Del(s: Server, idx: int): Server {
    if 0 <= idx < |s.clients| && s.clients[idx].fd >= 0
    then s.(clients := s.clients[idx := s.clients[idx].(fd := -1)])
    else s
  }

  // ---------------------------------------------------------------- what is owed to a client

  /** The bytes queued for entry i, in queue order. */
  function Pending(q: seq<Packet>, i: int): seq<Byte> {
    if q == [] then []
    else Pending(q[..|q| - 1], i) + if q[|q| - 1].idx == i then q[|q| - 1].data else []
  }

  lemma {:induction false} PendingConcat(a: seq<Packet>, b: seq<Packet>, i: int)
    ensures Pending(a + b, i) == Pending(a, i) + Pending(b, i)
  {
    if b == [] {
      assert a + b == a;
    } else {
      var m := |b| - 1;
      assert (a + b)[..|a| + m] == a + b[..m];
      PendingConcat(a, b[..m], i);
    }
  }

  /**
   * What a healthy connection has been sent, has in its buffer and has queued, in that order, is
   * what it found queued when it connected and then everything addressed to it.
   */
  ghost predicate Served(c: Client, pending: seq<Byte>) {
    c.fd >= 0 && !c.failed ==> c.sent + c.wbuf + pending == c.inherited + c.owed
  }

  ghost predicate Shaped(s: Server) {
    && |s.clients| == MAX_CLIENTS && s.count <= MAX_CLIENTS && |s.queue| <= DEPTH
    && (forall i :: 0 <= i < MAX_CLIENTS && s.clients[i].fd >= 0 ==> i < s.count)
    && (forall k :: 0 <= k < |s.queue| ==> 0 < |s.queue[k].data| <= WBUF_SIZE)
    && (forall i :: 0 <= i < MAX_CLIENTS ==> s.clients[i].fd >= -1 && |s.clients[i].wbuf| <= WBUF_SIZE)
  }

  ghost predicate Inv(s: Server) {
    && Shaped(s)
    && forall i :: 0 <= i < MAX_CLIENTS ==> Served(s.clients[i], Pending(s.queue, i))
  }

  lemma SendServed(c: Client, r: SendResult, pending: seq<Byte>)
    requires Served(c, pending)
    ensures Served(Send(c, r), pending)
    ensures Send(c, r).fd == c.fd && |Send(c, r).wbuf| <= |c.wbuf|
  {
    if r.Took? {
      var k := if r.n <= |c.wbuf| then r.n else |c.wbuf|;
    }
  }

  lemma {:induction false} DrainKeeps(s: Server, n: nat, env: nat -> SendResult)
    requires Inv(s) && n <= MAX_CLIENTS
    ensures Inv(DrainUpTo(s, n, env))
  {
    if n > 0 {
      DrainKeeps(s, n - 1, env);
      var s1 := DrainUpTo(s, n - 1, env);
      SendServed(s1.clients[n - 1], env(s1.calls), Pending(s1.queue, n - 1));
    }
  }

  // ---------------------------------------------------------------- one pass over the queue

  /**
   * In the middle of the pass the queue is what was not examined yet followed by what was sent to
   * the back.  For each client the packets sent back come first; they exist only while its buffer
   * is not empty, so later ones for the same client are sent back too and its order is kept.
   */
  ghost predicate Mid(s: Server, rest: seq<Packet>, back: seq<Packet>) {
    && Shaped(s) && s.queue == rest + back
    && (forall i :: 0 <= i < MAX_CLIENTS ==> Served(s.clients[i], Pending(back, i) + Pending(rest, i)))
    && (forall k :: 0 <= k < |back| ==> Addressable(s, back[k].idx) && s.clients[back[k].idx].wbuf != [])
  }

  lemma NothingBack(s: Server, back: seq<Packet>, i: nat)
    requires forall k :: 0 <= k < |back| ==> Addressable(s, back[k].idx) && s.clients[back[k].idx].wbuf != []
    requires i < |s.clients| && (s.clients[i].wbuf == [] || s.clients[i].fd < 0)
    ensures Pending(back, i) == []
  {
    if back != [] {
      assert back[|back| - 1].idx != i;
      NothingBack(s, back[..|back| - 1], i);
    }
  }

  lemma PendingHead(p: Packet, rest: seq<Packet>, i: int)
    ensures Pending([p] + rest, i) == (if p.idx == i then p.data else []) + Pending(rest, i)
  {
    PendingConcat([p], rest, i);
  }

  lemma PendingTail(back: seq<Packet>, p: Packet, i: int)
    ensures Pending(back + [p], i) == Pending(back, i) + if p.idx == i then p.data else []
  {
    PendingConcat(back, [p], i);
  }

  /** A packet nobody can receive any more is dropped. */
  lemma DropKeeps(s: Server, p: Packet, rest: seq<Packet>, back: seq<Packet>)
    requires Mid(s, [p] + rest, back) && !Addressable(s, p.idx)
    ensures Mid(s.(queue := rest + back), rest, back)
  {
    hide Pending, Served;
    var s' := s.(queue := rest + back);
    forall i | 0 <= i < MAX_CLIENTS ensures Served(s'.clients[i], Pending(back, i) + Pending(rest, i)) {
      assert Served(s.clients[i], Pending(back, i) + Pending([p] + rest, i));
      DropServed(s, p, rest, Pending(back, i), i);
    }
    ShapedAside(s, s', [p] + rest + back);
  }

  lemma DropServed(s: Server, p: Packet, rest: seq<Packet>, before: seq<Byte>, i: nat)
    requires i < |s.clients| && !Addressable(s, p.idx) && (s.clients[i].fd >= 0 ==> i < s.count)
    requires Served(s.clients[i], before + Pending([p] + rest, i))
    ensures Served(s.clients[i], before + Pending(rest, i))
  {
    PendingHead(p, rest, i);
    assert [] + Pending(rest, i) == Pending(rest, i);
  }

  /** A packet of a slow client goes behind everything already sent back for that client. */
  lemma RotateKeeps(s: Server, p: Packet, rest: seq<Packet>, back: seq<Packet>)
    requires Mid(s, [p] + rest, back) && Addressable(s, p.idx) && s.clients[p.idx].wbuf != []
    ensures Mid(s.(queue := rest + (back + [p])), rest, back + [p])
  {
    hide Pending, Served;
    var s' := s.(queue := rest + (back + [p]));
    forall i | 0 <= i < MAX_CLIENTS ensures Served(s'.clients[i], Pending(back + [p], i) + Pending(rest, i)) {
      RotatePending(back, p, rest, i);
      assert Served(s.clients[i], Pending(back, i) + Pending([p] + rest, i));
    }
    ShapedAside(s, s', [p] + rest + back);
  }

  /** The data of p moves from the front of the unexamined part to the end of the part sent back. */
  lemma RotatePending(back: seq<Packet>, p: Packet, rest: seq<Packet>, i: int)
    ensures Pending(back + [p], i) + Pending(rest, i) == Pending(back, i) + Pending([p] + rest, i)
  {
    hide Pending;
    PendingHead(p, rest, i);
    PendingTail(back, p, i);
  }

  lemma ShapedAside(s: Server, s': Server, q: seq<Packet>)
    requires Shaped(s) && s.queue == q && s' == s.(queue := s'.queue)
    requires |s'.queue| <= |q| && forall k :: 0 <= k < |s'.queue| ==> s'.queue[k] in q
    ensures Shaped(s')
  {
  }

  /** A packet handed to its client: nothing of that client was sent back before it. */
  lemma HandKeeps(s: Server, p: Packet, rest: seq<Packet>, back: seq<Packet>, r: SendResult)
    requires Mid(s, [p] + rest, back) && Addressable(s, p.idx) && s.clients[p.idx].wbuf == []
    ensures var c := Send(s.clients[p.idx].(wbuf := p.data), r);
            Mid(s.(queue := rest + back, clients := s.clients[p.idx := c], calls := s.calls + 1), rest, back)
  {
    hide Pending, Served, Send;
    var c := s.clients[p.idx];
    var loaded := c.(wbuf := p.data);
    var s' := s.(queue := rest + back, clients := s.clients[p.idx := Send(loaded, r)], calls := s.calls + 1);
    NothingBack(s, back, p.idx);
    PendingHead(p, rest, p.idx);
    assert Served(c, Pending(back, p.idx) + Pending([p] + rest, p.idx));
    LoadServed(c, p.data, Pending(rest, p.idx));
    SendServed(loaded, r, Pending(rest, p.idx));
    forall i | 0 <= i < MAX_CLIENTS ensures Served(s'.clients[i], Pending(back, i) + Pending(rest, i)) {
      if i == p.idx {
        assert [] + Pending(rest, i) == Pending(rest, i);
      } else {
        assert Served(s.clients[i], Pending(back, i) + Pending([p] + rest, i));
        PendingHead(p, rest, i);
        assert [] + Pending(rest, i) == Pending(rest, i);
      }
    }
    forall k | 0 <= k < |back| ensures Addressable(s', back[k].idx) && s'.clients[back[k].idx].wbuf != [] {
      assert Addressable(s, back[k].idx) && s.clients[back[k].idx].wbuf != [];
    }
    HandShaped(s, p, rest, back, Send(loaded, r));
  }

  /** Handing over an owed packet to an empty buffer. */
  lemma LoadServed(c: Client, data: seq<Byte>, rest: seq<Byte>)
    requires c.wbuf == [] && Served(c, [] + (data + rest))
    ensures Served(c.(wbuf := data), rest)
  {
    assert c.sent + [] + ([] + (data + rest)) == c.sent + data + rest;
  }

  lemma HandShaped(s: Server, p: Packet, rest: seq<Packet>, back: seq<Packet>, c: Client)
    requires Shaped(s) && s.queue == [p] + rest + back && 0 <= p.idx < MAX_CLIENTS
    requires c.fd == s.clients[p.idx].fd && |c.wbuf| <= |p.data|
    ensures Shaped(s.(queue := rest + back, clients := s.clients[p.idx := c], calls := s.calls + 1))
  {
    assert s.queue[0] == p;
    assert s.queue[1..] == rest + back;
  }

  /** One packet examined. */
  lemma PassHeadKeeps(s: Server, p: Packet, rest: seq<Packet>, back: seq<Packet>, env: nat -> SendResult)
    returns (back': seq<Packet>)
    requires Mid(s, [p] + rest, back)
    ensures Mid(PassHead(s, env), rest, back')
  {
    assert s.queue[0] == p && s.queue[1..] == rest + back;
    if !Addressable(s, p.idx) {
      DropKeeps(s, p, rest, back);
      back' := back;
    } else if s.clients[p.idx].wbuf != [] {
      RotateKeeps(s, p, rest, back);
      back' := back + [p];
      assert rest + back + [p] == rest + back';
    } else {
      HandKeeps(s, p, rest, back, env(s.calls));
      back' := back;
    }
  }

  lemma {:induction false} PassKeeps(s: Server, n: nat, env: nat -> SendResult) returns (back: seq<Packet>)
    requires Inv(s) && n <= |s.queue|
    ensures Mid(Pass(s, n, env), s.queue[n..], back)
  {
    if n == 0 {
      back := [];
      assert s.queue == s.queue[0..] + [];
      forall i | 0 <= i < MAX_CLIENTS ensures Served(s.clients[i], Pending([], i) + Pending(s.queue[0..], i)) {
        assert s.queue[0..] == s.queue;
        assert [] + Pending(s.queue, i) == Pending(s.queue, i);
      }
    } else {
      var before := PassKeeps(s, n - 1, env);
      assert s.queue[n - 1..] == [s.queue[n - 1]] + s.queue[n..];
      back := PassHeadKeeps(Pass(s, n - 1, env), s.queue[n - 1], s.queue[n..], before, env);
    }
  }

  /**
   * The flush keeps every client's byte order through any partial sends and rotations, and a
   * packet it leaves in the queue belongs to a connected client with unsent bytes in its buffer.
   */
  lemma FlushKeeps(s: Server, env: nat -> SendResult)
    requires Inv(s)
    ensures var s' := Flush(s, env);
            && Inv(s')
            && forall k :: 0 <= k < |s'.queue| ==>
                 Addressable(s', s'.queue[k].idx) && s'.clients[s'.queue[k].idx].wbuf != []
  {
    DrainKeeps(s, s.count, env);
    var s1 := DrainUpTo(s, s.count, env);
    var back := PassKeeps(s1, |s1.queue|, env);
    var s' := Flush(s, env);
    assert s1.queue[|s1.queue|..] == [] && s'.queue == [] + back && [] + back == back;
    forall i | 0 <= i < MAX_CLIENTS ensures Served(s'.clients[i], Pending(s'.queue, i)) {
      assert Pending([], i) == [] && Pending(back, i) + [] == Pending(back, i);
    }
  }

  // ---------------------------------------------------------------- delivery

  /** Every send call takes a whole buffer. */
  ghost predicate TakesAll(env: nat -> SendResult) {
    forall n: nat :: env(n).Took? && env(n).n >= 4096
  }

  /** No connected client has bytes waiting. */
  ghost predicate AllSent(s: Server) {
    forall i :: 0 <= i < |s.clients| && s.clients[i].fd >= 0 ==> s.clients[i].wbuf == []
  }

  lemma SendAll(c: Client, r: SendResult)
    requires r.Took? && r.n >= 4096 && |c.wbuf| <= WBUF_SIZE
    ensures Send(c, r).wbuf == [] && Send(c, r).fd == c.fd && Send(c, r).sent == c.sent + c.wbuf
  {
    assert c.wbuf[..|c.wbuf|] == c.wbuf && c.wbuf[|c.wbuf|..] == [];
  }

  lemma {:induction false} DrainSends(s: Server, n: nat, env: nat -> SendResult)
    requires Shaped(s) && n <= MAX_CLIENTS && TakesAll(env)
    ensures var s' := DrainUpTo(s, n, env);
            forall i :: 0 <= i < MAX_CLIENTS ==>
              s'.clients[i].fd == s.clients[i].fd && |s'.clients[i].wbuf| <= WBUF_SIZE
              && (i < n && s.clients[i].fd >= 0 ==> s'.clients[i].wbuf == [])
  {
    if n > 0 {
      DrainSends(s, n - 1, env);
      var s1 := DrainUpTo(s, n - 1, env);
      hide DrainUpTo, Send;
      SendAll(s1.clients[n - 1], env(s1.calls));
      assert DrainUpTo(s, n, env) == DrainAt(s1, n - 1, env) by { DrainStep(s, n, env); }
    }
  }

  lemma DrainStep(s: Server, n: nat, env: nat -> SendResult)
    requires 0 < n <= |s.clients|
    ensures DrainUpTo(s, n, env) == DrainAt(DrainUpTo(s, n - 1, env), n - 1, env)
  {
  }

  lemma {:induction false} PassSends(s: Server, n: nat, env: nat -> SendResult)
    requires AllSent(s) && n <= |s.queue| && TakesAll(env)
    requires forall k :: 0 <= k < |s.queue| ==> |s.queue[k].data| <= WBUF_SIZE
    ensures AllSent(Pass(s, n, env)) && Pass(s, n, env).queue == s.queue[n..]
  {
    if n > 0 {
      PassSends(s, n - 1, env);
      var s1 := Pass(s, n - 1, env);
      hide Pass, Send;
      assert s1.queue[0] == s.queue[n - 1] && s1.queue[1..] == s.queue[n..];
      var p := s1.queue[0];
      if Addressable(s1, p.idx) {
        SendAll(s1.clients[p.idx].(wbuf := p.data), env(s1.calls));
      }
      assert Pass(s, n, env) == PassHead(s1, env) by { PassStep(s, n, env); }
    }
  }

  lemma PassStep(s: Server, n: nat, env: nat -> SendResult)
    requires n > 0
    ensures Pass(s, n, env) == PassHead(Pass(s, n - 1, env), env)
  {
  }

  /**
   * With sockets that take all they are offered one flush delivers everything: the queue is empty, and
   * every healthy client has been sent what it inherited and all that was addressed to it.
   */
  lemma FlushDelivers(s: Server, env: nat -> SendResult)
    requires Inv(s) && TakesAll(env)
    ensures var s' := Flush(s, env);
            && s'.queue == [] && |s'.clients| == MAX_CLIENTS
            && forall i :: 0 <= i < MAX_CLIENTS && s'.clients[i].fd >= 0 && !s'.clients[i].failed ==>
                 s'.clients[i].sent == s'.clients[i].inherited + s'.clients[i].owed
  {
    FlushKeeps(s, env);
    DrainSends(s, s.count, env);
    var s1 := DrainUpTo(s, s.count, env);
    PassSends(s1, |s1.queue|, env);
    var s' := Flush(s, env);
    hide DrainUpTo, Pass, Flush, TakesAll;
    forall i | 0 <= i < MAX_CLIENTS && s'.clients[i].fd >= 0 && !s'.clients[i].failed
      ensures s'.clients[i].sent == s'.clients[i].inherited + s'.clients[i].owed
    {
      var c := s'.clients[i];
      assert Served(c, Pending([], i)) && Pending([], i) == [];
      assert c.sent + [] + [] == c.sent;
    }
  }

  // ---------------------------------------------------------------- runs

  lemma PushKeeps(s: Server, idx: int, data: seq<Byte>)
    requires Inv(s)
    ensures Inv(Push(s, idx, data))
  {
    if Pushable(s, data) {
      var s' := Push(s, idx, data);
      forall i | 0 <= i < MAX_CLIENTS ensures Served(s'.clients[i], Pending(s'.queue, i)) {
        PendingTail(s.queue, Packet(idx, data), i);
        var c := s.clients[i];
        if i == idx {
          assert c.sent + c.wbuf + (Pending(s.queue, i) + data) == (c.sent + c.wbuf + Pending(s.queue, i)) + data;
          assert c.inherited + (c.owed + data) == (c.inherited + c.owed) + data;
        } else {
          assert Pending(s.queue, i) + [] == Pending(s.queue, i);
        }
      }
    }
  }

  lemma AddKeeps(s: Server, fd: nat)
    requires Inv(s)
    ensures Inv(Add(s, fd))
  {
    var i := FreeIndex(s.clients, 0, Limit(s));
    if i < Limit(s) {
      assert [] + [] + Pending(s.queue, i) == Pending(s.queue, i) == Pending(s.queue, i) + [];
    }
  }

  datatype Step = DoPush(idx: int, data: seq<Byte>) | DoFlush(env: nat -> SendResult) | DoAdd(fd: nat) | DoDel(idx: int)

  function Next(s: Server, t: Step): Server
    requires |s.clients| == MAX_CLIENTS && s.count <= MAX_CLIENTS
  {
    match t
    case DoPush(idx, data) => Push(s, idx, data)
    case DoFlush(env) => Flush(s, env)
    case DoAdd(fd) => Add(s, fd)
    case DoDel(idx) => Del(s, idx)
  }

  lemma NextKeeps(s: Server, t: Step)
    requires Inv(s)
    ensures Inv(Next(s, t))
  {
    match t
    case DoPush(idx, data) => PushKeeps(s, idx, data);
    case DoFlush(env) => FlushKeeps(s, env);
    case DoAdd(fd) => AddKeeps(s, fd);
    case DoDel(idx) =>
  }

  ghost predicate Start(s: Server) {
    s.clients == seq(MAX_CLIENTS, _ => NO_CLIENT) && s.count == 0 && s.queue == []
  }

  ghost predicate Run(ss: seq<Server>, ts: seq<Step>) {
    && |ss| == |ts| + 1 && Start(ss[0])
    && forall i :: 0 <= i < |ts| ==>
         |ss[i].clients| == MAX_CLIENTS && ss[i].count <= MAX_CLIENTS && ss[i + 1] == Next(ss[i], ts[i])
  }

  /**
   * In every run of pushes, flushes, connects and disconnects, each healthy client is served in
   * order, after the bytes it found queued for its table entry.
   */
  lemma {:induction false} EveryClientServed(ss: seq<Server>, ts: seq<Step>, n: nat)
    requires Run(ss, ts) && n < |ss|
    ensures Inv(ss[n])
  {
    hide Next;
    if n > 0 {
      EveryClientServed(ss, ts, n - 1);
      hide Inv;
      NextKeeps(ss[n - 1], ts[n - 1]);
    }
  }

  // ---------------------------------------------------------------- reused table entries

  /** The number of clients the configuration allows, at most the table's 32; 0 stands for 32. */
  function Allowed(limit: nat): nat { if 1 <= limit <= 32 then limit else 32 }

  /** A connection is refused exactly when all allowed entries are taken, and else gets the first free one. */
  lemma AddMeaning(s: Server, fd: nat)
    requires |s.clients| == MAX_CLIENTS && forall i :: 0 <= i < MAX_CLIENTS ==> s.clients[i].fd >= -1
    ensures var s', n := Add(s, fd), Allowed(s.limit);
            if forall i :: 0 <= i < n ==> s.clients[i].fd >= 0 then s' == s
            else exists i :: 0 <= i < n && s.clients[i].fd == -1
                             && (forall j :: 0 <= j < i ==> s.clients[j].fd >= 0)
                             && s'.clients == s.clients[i := s'.clients[i]] && i < s'.count && s'.queue == s.queue
                             && s'.clients[i].fd == fd && s'.clients[i].wbuf == [] && s'.clients[i].sent == []
  {
    hide Pending;
    var i := FreeIndex(s.clients, 0, Limit(s));
    hide FreeIndex;
    if i < Limit(s) {
      assert s.clients[i].fd == -1;
    }
  }

  /** In every run connected clients are within the allowed part of the table. */
  lemma {:induction false} WithinLimit(ss: seq<Server>, ts: seq<Step>, n: nat, i: nat)
    requires Run(ss, ts) && n < |ss| && i < MAX_CLIENTS
    ensures ss[n].limit == ss[0].limit && |ss[n].clients| == MAX_CLIENTS
    ensures ss[n].clients[i].fd >= 0 ==> i < Allowed(ss[0].limit)
  {
    if n > 0 {
      WithinLimit(ss, ts, n - 1, i);
      EveryClientServed(ss, ts, n - 1);
      NextLimit(ss[n - 1], ts[n - 1], i);
      hide Next, Inv;
    }
  }

  lemma NextLimit(s: Server, t: Step, i: nat)
    requires Inv(s) && i < MAX_CLIENTS
    ensures var s' := Next(s, t);
            && s'.limit == s.limit && |s'.clients| == MAX_CLIENTS
            && (s'.clients[i].fd >= 0 ==> s.clients[i].fd >= 0 || i < Allowed(s.limit))
  {
    hide Pending;
    match t
    case DoFlush(env) => FlushTable(s, env, i);
    case _ =>
  }

  /** A flush connects and disconnects nobody. */
  lemma FlushTable(s: Server, env: nat -> SendResult, i: nat)
    requires Shaped(s) && i < MAX_CLIENTS
    ensures Flush(s, env).clients[i].fd == s.clients[i].fd && Flush(s, env).limit == s.limit
  {
    DrainTable(s, s.count, env, i);
    var s1 := DrainUpTo(s, s.count, env);
    PassTable(s1, |s1.queue|, env, i);
  }

  lemma {:induction false} DrainTable(s: Server, n: nat, env: nat -> SendResult, i: nat)
    requires n <= |s.clients| && i < |s.clients|
    ensures DrainUpTo(s, n, env).clients[i].fd == s.clients[i].fd
  {
    if n > 0 { DrainTable(s, n - 1, env, i); }
  }

  lemma {:induction false} PassTable(s: Server, n: nat, env: nat -> SendResult, i: nat)
    requires i < |s.clients|
    ensures Pass(s, n, env).clients[i].fd == s.clients[i].fd
  {
    if n > 0 { PassTable(s, n - 1, env, i); }
  }

  /** The bytes of the packets accepted for entry i in steps a to b - 1. */
  function Addressed(ss: seq<Server>, ts: seq<Step>, a: nat, b: nat, i: int): seq<Byte>
    requires a <= b <= |ts| <= |ss|
  {
    if a == b then []
    else
      Addressed(ss, ts, a, b - 1, i)
      + match ts[b - 1]
        case DoPush(idx, data) => if idx == i && Pushable(ss[b - 1], data) then data else []
        case _ => []
  }

  /** Step m connects a client in table entry i, and up to state n it is not disconnected. */
  ghost predicate Connection(ss: seq<Server>, ts: seq<Step>, m: nat, n: nat, i: nat)
    requires Run(ss, ts)
  {
    && m < n < |ss| && ts[m].DoAdd? && i == FreeIndex(ss[m].clients, 0, Limit(ss[m])) < Limit(ss[m])
    && forall k :: m < k < n ==> ts[k] != DoDel(i)
  }

  /** The parts of a table entry that only connecting, pushing and disconnecting change. */
  ghost predicate SameHistory(c: Client, c': Client) {
    c'.fd == c.fd && c'.owed == c.owed && c'.inherited == c.inherited
  }

  lemma {:induction false} DrainHistory(s: Server, n: nat, env: nat -> SendResult, i: nat)
    requires n <= |s.clients| && i < |s.clients|
    ensures SameHistory(s.clients[i], DrainUpTo(s, n, env).clients[i])
  {
    if n > 0 {
      DrainHistory(s, n - 1, env, i);
    }
  }

  lemma {:induction false} PassHistory(s: Server, n: nat, env: nat -> SendResult, i: nat)
    requires i < |s.clients|
    ensures SameHistory(s.clients[i], Pass(s, n, env).clients[i])
  {
    if n > 0 {
      PassHistory(s, n - 1, env, i);
    }
  }

  /** One step in the life of a connection: its history grows by exactly the packets accepted for it. */
  lemma StepHistory(s: Server, t: Step, i: nat)
    requires |s.clients| == MAX_CLIENTS && s.count <= MAX_CLIENTS && i < MAX_CLIENTS
    requires s.clients[i].fd >= 0 && t != DoDel(i)
    ensures var c, c' := s.clients[i], Next(s, t).clients[i];
            && |Next(s, t).clients| == MAX_CLIENTS
            && c'.fd == c.fd && c'.inherited == c.inherited
            && c'.owed == c.owed + match t
                                   case DoPush(idx, data) => if idx == i && Pushable(s, data) then data else []
                                   case _ => []
  {
    hide Pending, DrainUpTo, Pass;
    if t.DoFlush? {
      var s1 := DrainUpTo(s, s.count, t.env);
      DrainHistory(s, s.count, t.env, i);
      PassHistory(s1, |s1.queue|, t.env, i);
    }
  }

  /** As long as it lasts, a connection keeps what it inherited, and `owed` is what was addressed to it. */
  lemma {:induction false} ConnectionHistory(ss: seq<Server>, ts: seq<Step>, m: nat, n: nat, i: nat)
    requires Run(ss, ts) && Connection(ss, ts, m, n, i)
    ensures i < MAX_CLIENTS == |ss[n].clients|
    ensures var c := ss[n].clients[i];
            && c.fd >= 0 && c.inherited == Pending(ss[m].queue, i) && c.owed == Addressed(ss, ts, m + 1, n, i)
    decreases n
  {
    hide Pending;
    if n == m + 1 {
      assert ss[n] == Next(ss[m], ts[m]);
    } else {
      ConnectionHistory(ss, ts, m, n - 1, i);
      hide Next;
      StepHistory(ss[n - 1], ts[n - 1], i);
    }
  }

  /**
   * Nothing removes a table entry's queued packets when its client goes, so a newcomer may receive
   * them: what a healthy client was sent, has buffered and has queued is exactly the packets accepted
   * for it since it connected if and only if no packet was queued for its entry at that moment.
   */
  lemma OwnBytesOnlyIff(ss: seq<Server>, ts: seq<Step>, m: nat, n: nat, i: nat)
    requires Run(ss, ts) && Connection(ss, ts, m, n, i)
    ensures |ss[n].clients| == MAX_CLIENTS && i < MAX_CLIENTS
    ensures var c := ss[n].clients[i];
            !c.failed ==>
              (c.sent + c.wbuf + Pending(ss[n].queue, i) == Addressed(ss, ts, m + 1, n, i)
               <==> forall k :: 0 <= k < |ss[m].queue| ==> ss[m].queue[k].idx != i)
  {
    ConnectionHistory(ss, ts, m, n, i);
    EveryClientServed(ss, ts, n);
    EveryClientServed(ss, ts, m);
    var c := ss[n].clients[i];
    var found := Pending(ss[m].queue, i);
    assert Served(c, Pending(ss[n].queue, i));
    PendingEmptyIff(ss[m].queue, i);
    hide Pending, Addressed, Next, Inv, Connection, FreeIndex;
    assert |found + c.owed| == |found| + |c.owed|;
    assert [] + c.owed == c.owed;
  }

  lemma {:induction false} PendingEmptyIff(q: seq<Packet>, i: int)
    requires forall k :: 0 <= k < |q| ==> q[k].data != []
    ensures Pending(q, i) == [] <==> forall k :: 0 <= k < |q| ==> q[k].idx != i
  {
    if q != [] {
      PendingEmptyIff(q[..|q| - 1], i);
    }
  }

  /** A socket that takes all it is offered. */
  function Eager(n: nat): SendResult { Took(WBUF_SIZE) }

  /** A server whose only table entry in use is entry 0. */
  function Single(c: Client, q: seq<Packet>, calls: nat): Server {
    Server(seq(MAX_CLIENTS, _ => NO_CLIENT)[0 := c], 1, MAX_CLIENTS, q, calls)
  }

  lemma SingleAdd(c: Client, q: seq<Packet>, fd: nat)
    requires c.fd == -1
    ensures Add(Single(c, q, 0), fd) == Single(Client(fd, [], [], [], Pending(q, 0), false), q, 0)
    ensures FreeIndex(Single(c, q, 0).clients, 0, MAX_CLIENTS) == 0
  {
    hide Pending;
    var t := seq(MAX_CLIENTS, _ => NO_CLIENT);
    var c' := Client(fd, [], [], [], Pending(q, 0), false);
    assert t[0 := c][0 := c'] == t[0 := c'];
  }

  lemma SinglePushDel(c: Client, b: Byte)
    requires c.fd >= 0
    ensures var p := Packet(0, [b]); var c' := c.(owed := c.owed + [b]);
            && Push(Single(c, [], 0), 0, [b]) == Single(c', [p], 0)
            && Del(Single(c', [p], 0), 0) == Single(c'.(fd := -1), [p], 0)
  {
    var t := seq(MAX_CLIENTS, _ => NO_CLIENT);
    var c' := c.(owed := c.owed + [b]);
    assert t[0 := c][0 := c'] == t[0 := c'];
    assert t[0 := c'][0 := c'.(fd := -1)] == t[0 := c'.(fd := -1)];
    assert [] + [Packet(0, [b])] == [Packet(0, [b])];
  }

  lemma SingleFlush(c: Client, b: Byte)
    requires c.fd >= 0 && c.wbuf == [] && c.sent == []
    ensures Flush(Single(c, [Packet(0, [b])], 0), Eager) == Single(c.(sent := [b]), [], 1)
  {
    var t := seq(MAX_CLIENTS, _ => NO_CLIENT);
    var s := Single(c, [Packet(0, [b])], 0);
    assert DrainUpTo(s, 0, Eager) == s && DrainUpTo(s, 1, Eager) == s;
    assert Pass(s, 0, Eager) == s && Pass(s, 1, Eager) == PassHead(s, Eager);
    var loaded := c.(wbuf := [b]);
    assert [b][..1] == [b] && [b][1..] == [] && [] + [b] == [b];
    assert Send(loaded, Eager(0)) == c.(sent := [b]);
    assert t[0 := c][0 := c.(sent := [b])] == t[0 := c.(sent := [b])];
    assert s.queue[1..] == [];
  }

  /**
   * A run in which it happens: a packet is queued for a client that then disconnects; the next
   * client gets the same table entry and is sent that packet, although nothing was addressed to it.
   */
  lemma StalePacketSent(b: Byte) returns (ss: seq<Server>, ts: seq<Step>)
    ensures Run(ss, ts) && |ss| == 6 && Connection(ss, ts, 3, 5, 0)
    ensures |ss[5].clients| == MAX_CLIENTS && ss[5].clients[0].fd >= 0 && !ss[5].clients[0].failed
    ensures ss[5].clients[0].sent == [b] && Addressed(ss, ts, 4, 5, 0) == []
  {
    var p := Packet(0, [b]);
    var c1 := Client(5, [], [], [], [], false);
    var c2 := c1.(owed := [b]);
    var c4 := Client(6, [], [], [], [b], false);
    var s0 := Server(seq(MAX_CLIENTS, _ => NO_CLIENT), 0, MAX_CLIENTS, [], 0);
    ts := [DoAdd(5), DoPush(0, [b]), DoDel(0), DoAdd(6), DoFlush(Eager)];
    ss := [s0, Single(c1, [], 0), Single(c2, [p], 0), Single(c2.(fd := -1), [p], 0), Single(c4, [p], 0),
           Single(c4.(sent := [b]), [], 1)];
    assert Pending([p][..0], 0) == [] && Pending([p], 0) == [b] && Pending([], 0) == [];
    assert c1.owed + [b] == [b];
    SinglePushDel(c1, b);
    SingleAdd(c2.(fd := -1), [p], 6);
    SingleFlush(c4, b);
    hide Push, Del, Flush, Pending;
    assert Addressed(ss, ts, 4, 4, 0) == [];
  }
}
