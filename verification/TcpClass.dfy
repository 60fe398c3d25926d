/** The packet queue and the TCP server's transmit path in place. */
module TcpImpl {
  import opened Common
  import opened Bytes
  import opened TcpTx

  class TcpQueue {
    const items: array<Packet>
    var head: nat
    var tail: nat
    var count: nat

    ghost predicate Valid()
      reads this
    {
      && items.Length == DEPTH && head < DEPTH && tail < DEPTH && count <= DEPTH
      && tail == Wrap(head + count, DEPTH)
    }

    /** The queued packets, oldest first. */
    ghost function Contents(): (q: seq<Packet>)
      requires Valid()
      reads this, items
      ensures |q| == count
    {
      Window(items[..], head, count)
    }

    constructor ()
      ensures Valid() && fresh(items) && Contents() == []
    {
      items := new Packet[DEPTH](_ => Packet(-1, []));
      head, tail, count := 0, 0, 0;
    }

    method Push(idx: int, data: seq<Byte>) returns (ok: bool)
      requires Valid()
      modifies this, items
      ensures Valid()
      ensures ok == (0 < |data| <= WBUF_SIZE && |old(Contents())| < DEPTH)
      ensures Contents() == if ok then old(Contents()) + [Packet(idx, data)] else old(Contents())
    {
      if |data| == 0 || |data| > WBUF_SIZE || count >= DEPTH {
        return false;
      }
      WindowPush(items[..], head, count, Packet(idx, data));
      WrapIsMod(tail + 1, DEPTH);
      items[tail] := Packet(idx, data);
      tail := (tail + 1) % DEPTH;
      count := count + 1;
      return true;
    }

    method Peek() returns (p: Option<Packet>)
      requires Valid()
      ensures p == if Contents() == [] then None else Some(Contents()[0])
    {
      if count == 0 {
        return None;
      }
      p := Some(items[head]);
    }

    method Pop() returns (p: Option<Packet>)
      requires Valid()
      modifies this
      ensures Valid()
      ensures if old(Contents()) == [] then p.None? && Contents() == []
              else p.Some? && old(Contents()) == [p.value] + Contents()
    {
      if count == 0 {
        return None;
      }
      WindowPop(items[..], head, count);
      WrapIsMod(head + 1, DEPTH);
      p := Some(items[head]);
      head := (head + 1) % DEPTH;
      count := count - 1;
    }
  }

  /** A client table entry as the program keeps it. */
  datatype Conn = Conn(fd: int, wbuf: seq<Byte>)

  class TcpServer {
    const clients: array<Conn>
    const txq: TcpQueue
    /** Results of the send calls, in the order they are made. */
    const sends: nat -> SendResult
    const limit: nat
    var count: nat
    var calls: nat
    /** The client table with each connection's history. */
    ghost var table: seq<Client>

    /** The objects fit together, and the ghost table mirrors the real one. */
    ghost predicate Wired()
      reads this, clients, txq
    {
      && txq.Valid() && clients.Length == MAX_CLIENTS == |table| && count <= MAX_CLIENTS
      && forall i :: 0 <= i < MAX_CLIENTS ==> clients[i] == Conn(table[i].fd, table[i].wbuf)
    }

    ghost predicate Valid()
      reads this, clients, txq, txq.items
    {
      Wired() && TcpTx.Inv(Value())
    }

    ghost function Value(): Server
      requires txq.Valid()
      reads this, txq, txq.items
    {
      Server(table, count, limit, txq.Contents(), calls)
    }

    constructor (limit: nat, sends: nat -> SendResult)
      ensures Valid() && fresh(clients) && fresh(txq) && fresh(txq.items) && Start(Value())
      ensures this.limit == limit && this.sends == sends
    {
      clients := new Conn[MAX_CLIENTS](_ => Conn(-1, []));
      txq := new TcpQueue();
      this.limit, this.sends := limit, sends;
      count, calls := 0, 0;
      table := seq(MAX_CLIENTS, _ => NO_CLIENT);
    }

    /** One send on client i; the environment says how much the socket takes. */
    method SendAt(i: nat)
      requires Wired() && i < MAX_CLIENTS
      modifies `calls, `table, clients
      ensures Wired() && calls == old(calls) + 1
      ensures table == old(table)[i := Send(old(table)[i], sends(old(calls)))]
    {
      var c := clients[i];
      var result := sends(calls);
      match result {
        case Took(n) =>
          if n > 0 {
            var k := if n <= |c.wbuf| then n else |c.wbuf|;
            clients[i] := c.(wbuf := c.wbuf[k..]);
          } else {
            assert c.wbuf[0..] == c.wbuf;
          }
        case WouldBlock =>
        case Failed =>
          clients[i] := c.(wbuf := []);
      }
      calls := calls + 1;
      table := table[i := Send(table[i], result)];
    }

    method DrainBuffers()
      requires Wired()
      modifies `calls, `table, clients
      ensures Wired() && Value() == DrainUpTo(old(Value()), count, sends)
    {
      ghost var s := Value();
      for i := 0 to count
        invariant Wired() && Value() == DrainUpTo(s, i, sends)
      {
        if clients[i].fd >= 0 && |clients[i].wbuf| > 0 {
          SendAt(i);
        }
      }
    }

    /** Examines the packet at the head of the queue. */
    method PassOne(p: Packet)
      requires Wired() && txq.Contents() != [] && p == txq.Contents()[0] && 0 < |p.data| <= WBUF_SIZE
      modifies `calls, `table, clients, txq, txq.items
      ensures Wired() && Value() == PassHead(old(Value()), sends)
    {
      hide Window, Send;
      ghost var q := txq.Contents();
      var idx := p.idx;
      var _ := txq.Pop();
      assert txq.Contents() == q[1..];
      if idx < 0 || idx >= MAX_CLIENTS || idx >= count || clients[idx].fd < 0 {
        return;
      }
      if |clients[idx].wbuf| > 0 {
        var _ := txq.Push(p.idx, p.data);
        assert Packet(p.idx, p.data) == p;
        return;
      }
      ghost var t := table;
      clients[idx] := clients[idx].(wbuf := p.data);
      table := table[idx := table[idx].(wbuf := p.data)];
      SendAt(idx);
      assert table == t[idx := Send(t[idx].(wbuf := p.data), sends(old(calls)))];
    }

    /** The second loop: as many packets as were queued when it began. */
    method PassAll()
      requires Wired() && TcpTx.Inv(Value())
      modifies `calls, `table, clients, txq, txq.items
      ensures Wired() && Value() == Pass(old(Value()), old(|txq.Contents()|), sends)
    {
      hide TcpTx.Inv, Window, PassHead;
      ghost var s1 := Value();
      var remaining := txq.count;
      var examined := 0;
      while examined < remaining
        invariant examined <= remaining && remaining == |s1.queue| && Wired()
        invariant Value() == Pass(s1, examined, sends)
      {
        ghost var back := PassKeeps(s1, examined, sends);
        MidPacket(Value(), s1.queue[examined..], back);
        var p := txq.Peek();
        if p.None? {
          break;
        }
        PassOne(p.value);
        examined := examined + 1;
      }
    }

    /** Sends what the sockets take; packets of clients that cannot take more go to the back of the queue. */
    method FlushTx()
      requires Valid()
      modifies `calls, `table, clients, txq, txq.items
      ensures Valid() && Value() == Flush(old(Value()), sends)
      ensures forall k :: 0 <= k < |txq.Contents()| ==>
                Addressable(Value(), txq.Contents()[k].idx) && table[txq.Contents()[k].idx].wbuf != []
    {
      FlushKeeps(Value(), sends);
      DrainKeeps(Value(), count, sends);
      hide TcpTx.Inv, Window, Pass, DrainUpTo;
      DrainBuffers();
      PassAll();
    }

    method PushPacket(idx: int, data: seq<Byte>) returns (ok: bool)
      requires Valid()
      modifies `table, txq, txq.items
      ensures Valid() && ok == Pushable(old(Value()), data)
      ensures Value() == TcpTx.Push(old(Value()), idx, data)
    {
      PushKeeps(Value(), idx, data);
      ok := Enqueue(idx, data);
      hide TcpTx.Inv;
    }

    method Enqueue(idx: int, data: seq<Byte>) returns (ok: bool)
      requires Wired()
      modifies `table, txq, txq.items
      ensures Wired() && ok == Pushable(old(Value()), data)
      ensures Value() == TcpTx.Push(old(Value()), idx, data)
    {
      hide Window;
      ghost var s := Value();
      ok := txq.Push(idx, data);
      if ok {
        table := Owing(s, idx, data);
      }
    }

    method ClientDel(idx: int)
      requires Valid()
      modifies `table, clients
      ensures Valid() && Value() == Del(old(Value()), idx)
    {
      ghost var s := Value();
      NextKeeps(s, DoDel(idx));
      hide TcpTx.Inv, Window;
      if idx < 0 || idx >= MAX_CLIENTS {
        return;
      }
      if clients[idx].fd < 0 {
        return;
      }
      clients[idx] := clients[idx].(fd := -1);
      table := table[idx := table[idx].(fd := -1)];
    }

    method FindFree(most: nat) returns (i: nat)
      requires Wired() && most <= MAX_CLIENTS
      ensures i == FreeIndex(table, 0, most)
    {
      i := 0;
      while i < most && clients[i].fd != -1
        invariant i <= most && FreeIndex(table, 0, most) == FreeIndex(table, i, most)
      {
        i := i + 1;
      }
    }

    method ClientAdd(fd: nat) returns (ok: bool)
      requires Valid()
      modifies `count, `table, clients
      ensures Valid() && Value() == Add(old(Value()), fd)
      ensures ok == (FreeIndex(old(table), 0, Limit(old(Value()))) < Limit(old(Value())))
    {
      AddKeeps(Value(), fd);
      ok := Occupy(fd);
      hide TcpTx.Inv;
    }

    method Occupy(fd: nat) returns (ok: bool)
      requires Wired()
      modifies `count, `table, clients
      ensures Wired() && Value() == Add(old(Value()), fd)
      ensures ok == (FreeIndex(old(table), 0, Limit(old(Value()))) < Limit(old(Value())))
    {
      hide Window, Pending, FreeIndex;
      var most := if limit == 0 || limit > MAX_CLIENTS then MAX_CLIENTS else limit;
      var i := FindFree(most);
      if i >= most {
        return false;
      }
      clients[i] := Conn(fd, []);
      table := table[i := Client(fd, [], [], [], Pending(txq.Contents(), i), false)];
      if i >= count {
        count := i + 1;
      }
      return true;
    }
  }

  lemma MidPacket(s: Server, rest: seq<Packet>, back: seq<Packet>)
    requires Mid(s, rest, back) && rest != []
    ensures s.queue != [] && 0 < |s.queue[0].data| <= WBUF_SIZE
  {
  }
}
