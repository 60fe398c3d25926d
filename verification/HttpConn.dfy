/**
 * Output side of one HTTP connection: an output buffer that handlers append to, a file streamed
 * through it, and a non-blocking drain that runs whenever the socket may take more.
 */
module HttpConn {
  import opened Common
  import opened Bytes

  const WBUF_INIT: nat := 8192
  const WBUF_MAX: nat := 16 * 1024 * 1024
  const BUDGET: nat := 1024 * 1024

  /** Result of one write call; a call may report 0 bytes. */
  datatype WriteResult = Wrote(n: nat) | Interrupted | WouldBlock | Broken

  /**
   * wbuf[woff..] is not sent yet; `src` is the rest of the file being streamed, of which `remain`
   * bytes are still to be read.  `finished` tells a close after the whole response from the
   * others, `written` is everything the socket took.
   */
  datatype Conn = Conn(
    wbuf: seq<Byte>, wcap: nat, woff: nat, src: Option<seq<Byte>>, remain: nat,
    closed: bool, finished: bool, written: seq<Byte>)

  const NEW_CONN: Conn := Conn([], WBUF_INIT, 0, None, 0, false, false, [])

  function Closed(c: Conn, finished: bool): Conn { c.(closed := true, finished := finished) }

  // ---------------------------------------------------------------- handlers

  /** Capacity doubled until it is enough. */
  function Grown(cap: nat, need: nat): (r: nat)
    ensures cap > 0 ==> r >= need && r >= cap
    decreases if cap == 0 then 0 else need - cap
  {
    if cap == 0 || cap >= need then cap else Grown(2 * cap, need)
  }

  /** Appends a piece of the response; a client too slow to take it is disconnected. */
  function Append(c: Conn, data: seq<Byte>, memOk: bool): Conn {
    if c.closed || data == [] then c
    else if |c.wbuf| + |data| > WBUF_MAX then Closed(c, false)
    else if |c.wbuf| + |data| > c.wcap && !memOk then Closed(c, false)
    else c.(wcap := if |c.wbuf| + |data| > c.wcap then Grown(2 * c.wcap, |c.wbuf| + |data|) else c.wcap,
            wbuf := c.wbuf + data)
  }

  /** Header first, then `size` bytes of the file. */
  function Serve(c: Conn, header: seq<Byte>, file: seq<Byte>, size: nat, memOk: bool): Conn {
    Append(c, header, memOk).(src := Some(file), remain := size)
  }

  // ---------------------------------------------------------------- draining

  function Least(a: nat, b: nat): (m: nat)
    ensures m <= a && m <= b && (m == a || m == b)
  {
    if a <= b then a else b
  }

  function Advance(c: Conn, n: nat): Conn
    requires c.woff <= |c.wbuf|
  {
    var k := Least(n, |c.wbuf| - c.woff);
    c.(woff := c.woff + k, written := c.written + c.wbuf[c.woff..c.woff + k])
  }

  /** The write loop: until the buffer is empty, the socket is full or a megabyte is spent. */
  function WriteLoop(c: Conn, script: seq<WriteResult>, spent: nat): (Conn, seq<WriteResult>)
    requires c.woff <= |c.wbuf|
    decreases |script|
  {
    if c.woff >= |c.wbuf| || script == [] then (c, script)
    else
      match script[0]
      case Wrote(n) =>
        if n == 0 then (Closed(c, false), script[1..])
        else
          var spent' := spent + Least(n, |c.wbuf| - c.woff);
          if spent' >= BUDGET then (Advance(c, n), script[1..]) else WriteLoop(Advance(c, n), script[1..], spent')
      case Interrupted => WriteLoop(c, script[1..], spent)
      case WouldBlock => (c, script[1..])
      case Broken => (Closed(c, false), script[1..])
  }

  /** What one read call returns of the bytes asked for. */
  function ReadSize(want: nat, available: nat, chunks: seq<nat>): (r: nat)
    ensures r <= want && r <= available
  {
    var most := Least(want, available);
    if chunks == [] then most else Least(most, chunks[0])
  }

  function Later(chunks: seq<nat>): seq<nat> { if chunks == [] then [] else chunks[1..] }

  /** The read loop: fills the buffer up to its capacity or the end of the announced size. */
  function FillLoop(c: Conn, chunks: seq<nat>): (r: (Conn, seq<nat>))
    requires c.src.Some?
    ensures r.0.remain <= c.remain && |r.0.wbuf| >= |c.wbuf|
    ensures !r.0.closed ==> r.0.src.Some?
    decreases c.remain
  {
    if |c.wbuf| >= c.wcap || c.remain == 0 then (c, chunks)
    else
      var n := ReadSize(Least(c.wcap - |c.wbuf|, c.remain), |c.src.value|, chunks);
      if n == 0 then (Closed(c, false), Later(chunks))
      else
        FillLoop(c.(wbuf := c.wbuf + c.src.value[..n], src := Some(c.src.value[n..]), remain := c.remain - n),
                 Later(chunks))
  }

  function SrcFill(c: Conn, chunks: seq<nat>): (Conn, seq<nat>)
    requires c.src.Some?
  {
    var (c1, rest) := FillLoop(c, chunks);
    if !c1.closed && c1.remain == 0 then (c1.(src := None), rest) else (c1, rest)
  }

  ghost predicate Valid(c: Conn) { c.woff <= |c.wbuf| && c.wcap > 0 }

  lemma SliceJoin(w: seq<Byte>, b: seq<Byte>, i: nat, j: nat, k: nat)
    requires i <= j <= k <= |b|
    ensures (w + b[i..j]) + b[j..k] == w + b[i..k] && w + b[i..i] == w
  {
  }

  lemma {:induction false} WriteLoopKeeps(c: Conn, script: seq<WriteResult>, spent: nat)
    requires Valid(c)
    ensures var (c', rest) := WriteLoop(c, script, spent);
            && Valid(c') && c'.wbuf == c.wbuf && c'.src == c.src && c'.remain == c.remain && c'.wcap == c.wcap
            && c.woff <= c'.woff && c'.written == c.written + c.wbuf[c.woff..c'.woff]
            && (!c.closed ==> !c'.finished || c.finished)
            && |rest| <= |script|
    decreases |script|
  {
    if c.woff < |c.wbuf| && script != [] {
      match script[0]
      case Wrote(n) =>
        var c1 := Advance(c, n);
        var spent' := spent + Least(n, |c.wbuf| - c.woff);
        WriteLoopKeeps(c1, script[1..], spent');
        var c' := WriteLoop(c1, script[1..], spent').0;
        hide WriteLoop;
        SliceJoin(c.written, c.wbuf, c.woff, c1.woff, c'.woff);
        SliceJoin(c.written, c.wbuf, c.woff, c.woff, c.woff);
      case Interrupted => WriteLoopKeeps(c, script[1..], spent);
      case _ =>
    }
  }

  /**
   * Sends what the socket takes.  With the buffer empty it refills from the file and goes on;
   * with nothing left at all the connection is finished.
   */
  function Drain(c: Conn, script: seq<WriteResult>, chunks: seq<nat>): (Conn, seq<WriteResult>)
    requires Valid(c)
    decreases c.remain
  {
    var (c1, rest) := WriteLoop(c, script, 0);
    WriteLoopKeeps(c, script, 0);
    if c1.closed || c1.woff < |c1.wbuf| then (c1, rest)
    else
      var c2 := c1.(wbuf := [], woff := 0);
      if c2.src.None? then (Closed(c2, true), rest)
      else
        var (c3, chunks') := SrcFill(c2, chunks);
        if c3.closed then (c3, rest)
        else if c3.wbuf == [] then (Closed(c3, true), rest)
        else
          FillCounts(c2, chunks);
          Drain(c3, rest, chunks')
  }

  /** Bytes that entered the buffer were taken off the amount still to be read. */
  ghost predicate Filled(c: Conn, c': Conn) {
    && |c'.wbuf| - |c.wbuf| == c.remain - c'.remain && c'.wcap == c.wcap && c'.woff == c.woff
    && c'.written == c.written && (!c.closed ==> c'.finished ==> c.finished)
    && (!c.closed && !c'.closed ==> |c'.wbuf| >= c'.wcap || c'.remain == 0)
  }

  lemma {:induction false} FillCounts(c: Conn, chunks: seq<nat>)
    requires c.src.Some?
    ensures Filled(c, FillLoop(c, chunks).0)
    decreases c.remain
  {
    if |c.wbuf| < c.wcap && c.remain > 0 {
      hide Least, Later;
      var n := ReadSize(Least(c.wcap - |c.wbuf|, c.remain), |c.src.value|, chunks);
      if n > 0 {
        var c1 := c.(wbuf := c.wbuf + c.src.value[..n], src := Some(c.src.value[n..]), remain := c.remain - n);
        FillCounts(c1, Later(chunks));
        assert FillLoop(c, chunks) == FillLoop(c1, Later(chunks));
        hide FillLoop, ReadSize;
        assert c1.wcap == c.wcap && |c1.wbuf| - |c.wbuf| == c.remain - c1.remain;
      }
    }
  }

  // ---------------------------------------------------------------- conservation

  /** The part of the file still to come. */
  function ToRead(c: Conn): seq<Byte> {
    if c.src.None? then [] else c.src.value[..Least(c.remain, |c.src.value|)]
  }

  /** Everything sent, buffered and still to be read, in that order. */
  function Response(c: Conn): seq<Byte>
    requires c.woff <= |c.wbuf|
  {
    c.written + c.wbuf[c.woff..] + ToRead(c)
  }

  /**
   * `all` is the response the handlers asked for and `size` its announced length: an open
   * connection still has all of it, a closed one has sent a prefix, a finished one all of it.
   */
  ghost predicate Conserves(c: Conn, all: seq<Byte>, size: nat) {
    && Valid(c) && (c.finished ==> c.closed)
    && (if c.closed then c.written <= all else Response(c) == all)
    && (!c.closed ==> |c.written| + (|c.wbuf| - c.woff) + (if c.src.Some? then c.remain else 0) == size)
    && (c.finished ==> c.written == all && |c.written| == size)
  }

  lemma {:induction false} WriteLoopConserves(c: Conn, script: seq<WriteResult>, spent: nat, all: seq<Byte>, size: nat)
    requires Conserves(c, all, size) && !c.closed
    ensures Conserves(WriteLoop(c, script, spent).0, all, size)
    decreases |script|
  {
    if c.woff < |c.wbuf| && script != [] {
      match script[0]
      case Wrote(n) =>
        AdvanceConserves(c, n, all, size);
        if n > 0 {
          WriteLoopConserves(Advance(c, n), script[1..], spent + Least(n, |c.wbuf| - c.woff), all, size);
        }
        CloseConserves(c, all, size);
      case Interrupted => WriteLoopConserves(c, script[1..], spent, all, size);
      case WouldBlock =>
      case Broken => CloseConserves(c, all, size);
    }
  }

  lemma AdvanceConserves(c: Conn, n: nat, all: seq<Byte>, size: nat)
    requires Conserves(c, all, size) && !c.closed
    ensures Conserves(Advance(c, n), all, size)
  {
    var k := Least(n, |c.wbuf| - c.woff);
    Moved(c.written, c.wbuf, c.woff, c.woff + k);
  }

  lemma Moved(w: seq<Byte>, b: seq<Byte>, i: nat, j: nat)
    requires i <= j <= |b|
    ensures (w + b[i..j]) + b[j..] == w + b[i..]
  {
    assert b[i..j] + b[j..] == b[i..];
    Associative(w, b[i..j], b[j..]);
  }

  lemma CloseConserves(c: Conn, all: seq<Byte>, size: nat)
    requires Conserves(c, all, size) && !c.closed
    ensures Conserves(Closed(c, false), all, size)
  {
    assert c.written + c.wbuf[c.woff..] + ToRead(c) == c.written + (c.wbuf[c.woff..] + ToRead(c));
  }

  lemma {:induction false} FillConserves(c: Conn, chunks: seq<nat>, all: seq<Byte>, size: nat)
    requires Conserves(c, all, size) && !c.closed && c.src.Some?
    ensures Conserves(FillLoop(c, chunks).0, all, size)
    decreases c.remain
  {
    if |c.wbuf| < c.wcap && c.remain > 0 {
      var n := ReadSize(Least(c.wcap - |c.wbuf|, c.remain), |c.src.value|, chunks);
      if n == 0 {
        CloseConserves(c, all, size);
      } else {
        var c1 := c.(wbuf := c.wbuf + c.src.value[..n], src := Some(c.src.value[n..]), remain := c.remain - n);
        ReadConserves(c, c1, n);
        FillConserves(c1, Later(chunks), all, size);
      }
    }
  }

  lemma ReadConserves(c: Conn, c1: Conn, n: nat)
    requires c.src.Some? && 0 < n <= |c.src.value| && n <= c.remain && c.woff <= |c.wbuf|
    requires c1 == c.(wbuf := c.wbuf + c.src.value[..n], src := Some(c.src.value[n..]), remain := c.remain - n)
    ensures Response(c1) == Response(c)
  {
    var f := c.src.value;
    var m := Least(c.remain, |f|);
    assert f[..m] == f[..n] + f[n..][..m - n];
    assert c1.wbuf[c1.woff..] == c.wbuf[c.woff..] + f[..n];
    assert c.written + (c.wbuf[c.woff..] + f[..n]) + f[n..][..m - n]
        == c.written + c.wbuf[c.woff..] + (f[..n] + f[n..][..m - n]);
  }

  /** Nothing left to read: the file is released. */
  lemma ReleaseConserves(c: Conn, all: seq<Byte>, size: nat)
    requires Conserves(c, all, size) && !c.closed && c.src.Some? && c.remain == 0
    ensures Conserves(c.(src := None), all, size)
  {
  }

  /** With everything sent, closing finishes the response. */
  lemma FinishConserves(c: Conn, all: seq<Byte>, size: nat)
    requires Conserves(c, all, size) && !c.closed && c.wbuf == [] && c.src.None?
    ensures Conserves(Closed(c, true), all, size)
  {
    assert c.written + [] + [] == c.written;
  }

  /** The emptied buffer is reset to its beginning. */
  lemma ResetConserves(c: Conn, all: seq<Byte>, size: nat)
    requires Conserves(c, all, size) && !c.closed && c.woff == |c.wbuf|
    ensures Conserves(c.(wbuf := [], woff := 0), all, size)
  {
    var e: seq<Byte> := [];
    assert c.wbuf[c.woff..] == e && e[0..] == e;
  }

  /**
   * A drain loses and invents nothing, whatever the socket and the file do; and a connection it
   * leaves open has unsent bytes in its buffer, so the event loop will come back to it.
   */
  lemma {:induction false} DrainConserves(c: Conn, script: seq<WriteResult>, chunks: seq<nat>, all: seq<Byte>, size: nat)
    requires Conserves(c, all, size) && !c.closed
    ensures var c' := Drain(c, script, chunks).0;
            Conserves(c', all, size) && (!c'.closed ==> c'.woff < |c'.wbuf|)
    decreases c.remain
  {
    var (c1, rest) := WriteLoop(c, script, 0);
    WriteLoopConserves(c, script, 0, all, size);
    WriteLoopKeeps(c, script, 0);
    if !c1.closed && c1.woff >= |c1.wbuf| {
      var c2 := c1.(wbuf := [], woff := 0);
      ResetConserves(c1, all, size);
      if c2.src.None? {
        FinishConserves(c2, all, size);
      } else {
        FillConserves(c2, chunks, all, size);
        FillCounts(c2, chunks);
        var f := FillLoop(c2, chunks).0;
        if !f.closed && f.remain == 0 {
          ReleaseConserves(f, all, size);
        }
        var (c3, chunks') := SrcFill(c2, chunks);
        if !c3.closed {
          if c3.wbuf == [] {
            FinishConserves(c3, all, size);
          } else {
            DrainConserves(c3, rest, chunks', all, size);
          }
        }
      }
    }
  }

  // ---------------------------------------------------------------- whole connections

  datatype Step =
    | DoAppend(data: seq<Byte>, memOk: bool)
    | DoServe(header: seq<Byte>, file: seq<Byte>, size: nat, memOk: bool)
    | DoDrain(script: seq<WriteResult>, chunks: seq<nat>)
    | Drop

  /** A connection with what its handlers asked for so far. */
  datatype Sys = Sys(c: Conn, all: seq<Byte>, size: nat)

  /** Handlers append before they hand over a file, and only to open connections; draining needs one too. */
  predicate Enabled(x: Sys, t: Step) {
    !x.c.closed && (t.DoAppend? || t.DoServe? ==> x.c.src.None?)
  }

  function Next(x: Sys, t: Step): Sys
    requires Valid(x.c)
  {
    match t
    case DoAppend(data, memOk) => Sys(Append(x.c, data, memOk), x.all + data, x.size + |data|)
    case DoServe(header, file, size, memOk) =>
      Sys(Serve(x.c, header, file, size, memOk), x.all + header + file[..Least(size, |file|)], x.size + |header| + size)
    case DoDrain(script, chunks) => x.(c := Drain(x.c, script, chunks).0)
    case Drop => x.(c := Closed(x.c, false))
  }

  lemma AppendConserves(c: Conn, data: seq<Byte>, memOk: bool, all: seq<Byte>, size: nat)
    requires Conserves(c, all, size) && !c.closed && c.src.None?
    ensures var c' := Append(c, data, memOk);
            Conserves(c', all + data, size + |data|) && c'.src.None?
  {
    hide Grown;
    var c' := Append(c, data, memOk);
    if data == [] {
      assert all + data == all;
    } else if c'.closed {
      CloseConserves(c, all, size);
      assert c.written <= all <= all + data;
    } else {
      assert c'.wbuf[c'.woff..] == c.wbuf[c.woff..] + data;
      assert c.written + (c.wbuf[c.woff..] + data) + [] == (c.written + c.wbuf[c.woff..] + []) + data;
      assert c'.wcap > 0 by { GrownPositive(2 * c.wcap, |c.wbuf| + |data|); }
    }
  }

  lemma GrownPositive(cap: nat, need: nat)
    requires cap > 0
    ensures Grown(cap, need) > 0
  {
  }

  lemma ServeConserves(c: Conn, header: seq<Byte>, file: seq<Byte>, n: nat, memOk: bool, all: seq<Byte>, size: nat)
    requires Conserves(c, all, size) && !c.closed && c.src.None?
    ensures Conserves(Serve(c, header, file, n, memOk), all + header + file[..Least(n, |file|)], size + |header| + n)
  {
    AppendConserves(c, header, memOk, all, size);
    hide Append;
    var c1 := Append(c, header, memOk);
    if c1.closed {
      assert c1.written <= all + header <= all + header + file[..Least(n, |file|)];
      assert !c1.finished;
    } else {
      assert c1.written + c1.wbuf[c1.woff..] + [] == c1.written + c1.wbuf[c1.woff..];
    }
  }

  lemma NextConserves(x: Sys, t: Step)
    requires Conserves(x.c, x.all, x.size) && Enabled(x, t)
    ensures var y := Next(x, t); Conserves(y.c, y.all, y.size)
  {
    match t
    case DoAppend(data, memOk) => AppendConserves(x.c, data, memOk, x.all, x.size);
    case DoServe(header, file, n, memOk) => ServeConserves(x.c, header, file, n, memOk, x.all, x.size);
    case DoDrain(script, chunks) => DrainConserves(x.c, script, chunks, x.all, x.size);
    case Drop => CloseConserves(x.c, x.all, x.size);
  }

  ghost predicate Run(xs: seq<Sys>, ts: seq<Step>) {
    && |xs| == |ts| + 1 && xs[0] == Sys(NEW_CONN, [], 0)
    && forall i :: 0 <= i < |ts| ==> Valid(xs[i].c) && Enabled(xs[i], ts[i]) && xs[i + 1] == Next(xs[i], ts[i])
  }

  /**
   * For every pattern of partial writes, stalls and wake-ups: the bytes written are a prefix of
   * the response, and a connection that finished has written all of it, in the announced length.
   */
  lemma {:induction false} WrittenIsPrefix(xs: seq<Sys>, ts: seq<Step>, n: nat)
    requires Run(xs, ts) && n < |xs|
    ensures var x := xs[n];
            && Conserves(x.c, x.all, x.size)
            && x.c.written <= x.all
            && (x.c.finished ==> x.c.written == x.all && |x.c.written| == x.size)
  {
    hide Next;
    if n == 0 {
      assert xs[0].c.wbuf[0..] == [];
    } else {
      WrittenIsPrefix(xs, ts, n - 1);
      NextConserves(xs[n - 1], ts[n - 1]);
    }
    var c := xs[n].c;
    if !c.closed {
      assert Response(c) == c.written + (c.wbuf[c.woff..] + ToRead(c));
    }
  }

  // ---------------------------------------------------------------- progress

  predicate Moves(script: seq<WriteResult>) {
    script != [] && script[0].Wrote? && script[0].n > 0
  }

  /** A drain never takes back what was written. */
  lemma {:induction false} DrainWritten(c: Conn, script: seq<WriteResult>, chunks: seq<nat>)
    requires Valid(c) && !c.closed
    ensures |Drain(c, script, chunks).0.written| >= |WriteLoop(c, script, 0).0.written| >= |c.written|
    decreases c.remain
  {
    WriteLoopKeeps(c, script, 0);
    var (c1, rest) := WriteLoop(c, script, 0);
    if !c1.closed && c1.woff >= |c1.wbuf| && c1.src.Some? {
      var c2 := c1.(wbuf := [], woff := 0);
      FillCounts(c2, chunks);
      var (c3, chunks') := SrcFill(c2, chunks);
      if !c3.closed && c3.wbuf != [] {
        DrainWritten(c3, rest, chunks');
      }
    }
  }

  /** A wake-up whose first write succeeds makes progress. */
  lemma DrainMoves(c: Conn, script: seq<WriteResult>, chunks: seq<nat>)
    requires Valid(c) && !c.closed && c.woff < |c.wbuf| && Moves(script)
    ensures |Drain(c, script, chunks).0.written| > |c.written|
  {
    var c1 := Advance(c, script[0].n);
    WriteLoopKeeps(c1, script[1..], Least(script[0].n, |c.wbuf| - c.woff));
    DrainWritten(c, script, chunks);
    hide Drain;
  }

  datatype WakeUp = WakeUp(script: seq<WriteResult>, chunks: seq<nat>)

  /** The connection after a number of wake-ups, as long as it is open. */
  function WakeAll(c: Conn, ws: seq<WakeUp>): Conn
    requires Valid(c)
    decreases |ws|
  {
    if c.closed || ws == [] then c
    else
      var c' := Drain(c, ws[0].script, ws[0].chunks).0;
      DrainValid(c, ws[0].script, ws[0].chunks);
      WakeAll(c', ws[1..])
  }

  lemma {:induction false} DrainValid(c: Conn, script: seq<WriteResult>, chunks: seq<nat>)
    requires Valid(c)
    ensures Valid(Drain(c, script, chunks).0)
    decreases c.remain
  {
    WriteLoopKeeps(c, script, 0);
    var (c1, rest) := WriteLoop(c, script, 0);
    if !c1.closed && c1.woff >= |c1.wbuf| && c1.src.Some? {
      var c2 := c1.(wbuf := [], woff := 0);
      FillCounts(c2, chunks);
      var (c3, chunks') := SrcFill(c2, chunks);
      if !c3.closed && c3.wbuf != [] {
        DrainValid(c3, rest, chunks');
      }
    }
  }

  /** As many wake-ups that can write as there are bytes left close the connection. */
  lemma {:induction false} EnoughWakeUpsClose(c: Conn, ws: seq<WakeUp>, all: seq<Byte>, size: nat)
    requires Conserves(c, all, size) && (c.closed || c.woff < |c.wbuf|)
    requires forall i :: 0 <= i < |ws| ==> Moves(ws[i].script)
    requires |ws| + |c.written| >= size
    ensures WakeAll(c, ws).closed
    decreases |ws|
  {
    hide Drain;
    if !c.closed && ws != [] {
      var c' := Drain(c, ws[0].script, ws[0].chunks).0;
      DrainConserves(c, ws[0].script, ws[0].chunks, all, size);
      DrainMoves(c, ws[0].script, ws[0].chunks);
      EnoughWakeUpsClose(c', ws[1..], all, size);
    }
  }

  // ---------------------------------------------------------------- nothing is given up without a reason

  /** No write call fails or reports 0 bytes. */
  predicate Sound(script: seq<WriteResult>) {
    forall i :: 0 <= i < |script| ==> !script[i].Broken? && (script[i].Wrote? ==> script[i].n > 0)
  }

  predicate AllPositive(chunks: seq<nat>) { forall i :: 0 <= i < |chunks| ==> chunks[i] > 0 }

  /** The file being streamed has all the bytes announced. */
  predicate FileWhole(c: Conn) { c.src.Some? ==> |c.src.value| >= c.remain }

  lemma {:induction false} WriteLoopSound(c: Conn, script: seq<WriteResult>, spent: nat)
    requires Valid(c) && !c.closed && Sound(script)
    ensures var (c', rest) := WriteLoop(c, script, spent);
            !c'.closed && Sound(rest) && c'.src == c.src && c'.remain == c.remain
    decreases |script|
  {
    if c.woff < |c.wbuf| && script != [] {
      match script[0]
      case Wrote(n) => WriteLoopSound(Advance(c, n), script[1..], spent + Least(n, |c.wbuf| - c.woff));
      case Interrupted => WriteLoopSound(c, script[1..], spent);
      case _ =>
    }
  }

  lemma {:induction false} FillLoopSound(c: Conn, chunks: seq<nat>)
    requires c.src.Some? && !c.closed && FileWhole(c) && AllPositive(chunks)
    ensures var (c', rest) := FillLoop(c, chunks); !c'.closed && FileWhole(c') && AllPositive(rest)
    decreases c.remain
  {
    if |c.wbuf| < c.wcap && c.remain > 0 {
      var n := ReadSize(Least(c.wcap - |c.wbuf|, c.remain), |c.src.value|, chunks);
      assert n > 0;
      FillLoopSound(c.(wbuf := c.wbuf + c.src.value[..n], src := Some(c.src.value[n..]), remain := c.remain - n),
                    Later(chunks));
    }
  }

  lemma {:induction false} DrainSound(c: Conn, script: seq<WriteResult>, chunks: seq<nat>)
    requires Valid(c) && !c.closed && FileWhole(c) && Sound(script) && AllPositive(chunks)
    ensures var c' := Drain(c, script, chunks).0; FileWhole(c') && (c'.closed ==> c'.finished)
    decreases c.remain
  {
    WriteLoopKeeps(c, script, 0);
    WriteLoopSound(c, script, 0);
    var (c1, rest) := WriteLoop(c, script, 0);
    if c1.woff >= |c1.wbuf| && c1.src.Some? {
      var c2 := c1.(wbuf := [], woff := 0);
      FillCounts(c2, chunks);
      FillLoopSound(c2, chunks);
      var (c3, chunks') := SrcFill(c2, chunks);
      if c3.wbuf != [] {
        DrainSound(c3, rest, chunks');
      }
    }
  }

  /**
   * A step in which memory is to be had, the buffer stays within 16 MiB, the socket does not fail, and
   * files are as long as announced and can be read.
   */
  predicate Healthy(x: Sys, t: Step) {
    match t
    case DoAppend(data, memOk) => memOk && |x.c.wbuf| + |data| <= 16 * 1024 * 1024
    case DoServe(header, file, size, memOk) =>
      memOk && |x.c.wbuf| + |header| <= 16 * 1024 * 1024 && |file| >= size
    case DoDrain(script, chunks) => Sound(script) && AllPositive(chunks)
    case Drop => false
  }

  lemma NextHealthy(x: Sys, t: Step)
    requires Valid(x.c) && Enabled(x, t) && Healthy(x, t) && FileWhole(x.c)
    ensures var c := Next(x, t).c; FileWhole(c) && (c.closed ==> c.finished)
  {
    hide Grown;
    match t
    case DoDrain(script, chunks) => DrainSound(x.c, script, chunks);
    case _ =>
  }

  /**
   * Nothing is given up without a reason: as long as every step is healthy, a connection is closed only
   * when its whole response has been written.
   */
  lemma {:induction false} ClosedMeansDelivered(xs: seq<Sys>, ts: seq<Step>, n: nat)
    requires Run(xs, ts) && n < |xs| && forall i :: 0 <= i < |ts| ==> Healthy(xs[i], ts[i])
    ensures FileWhole(xs[n].c)
    ensures xs[n].c.closed ==> xs[n].c.finished && xs[n].c.written == xs[n].all && |xs[n].c.written| == xs[n].size
  {
    WrittenIsPrefix(xs, ts, n);
    hide Next, Conserves, Healthy, FileWhole;
    if n > 0 {
      ClosedMeansDelivered(xs, ts, n - 1);
      NextHealthy(xs[n - 1], ts[n - 1]);
    } else {
      assert FileWhole(xs[0].c) by { NewWhole(); }
    }
  }

  lemma NewWhole()
    ensures FileWhole(NEW_CONN)
  {
  }

  // ---------------------------------------------------------------- bounds

  /** What is buffered fits the buffer. */
  predicate Room(c: Conn) { |c.wbuf| <= c.wcap }

  lemma {:induction false} FillLoopRoom(c: Conn, chunks: seq<nat>)
    requires c.src.Some? && Room(c)
    ensures Room(FillLoop(c, chunks).0)
    decreases c.remain
  {
    if |c.wbuf| < c.wcap && c.remain > 0 {
      var n := ReadSize(Least(c.wcap - |c.wbuf|, c.remain), |c.src.value|, chunks);
      if n > 0 {
        FillLoopRoom(c.(wbuf := c.wbuf + c.src.value[..n], src := Some(c.src.value[n..]), remain := c.remain - n),
                     Later(chunks));
      }
    }
  }

  lemma {:induction false} DrainRoom(c: Conn, script: seq<WriteResult>, chunks: seq<nat>)
    requires Valid(c) && Room(c)
    ensures Room(Drain(c, script, chunks).0)
    decreases c.remain
  {
    WriteLoopKeeps(c, script, 0);
    var (c1, rest) := WriteLoop(c, script, 0);
    if !c1.closed && c1.woff >= |c1.wbuf| && c1.src.Some? {
      var c2 := c1.(wbuf := [], woff := 0);
      FillCounts(c2, chunks);
      FillLoopRoom(c2, chunks);
      var (c3, chunks') := SrcFill(c2, chunks);
      if !c3.closed && c3.wbuf != [] {
        DrainRoom(c3, rest, chunks');
      }
    }
  }

  /** In every run what is buffered fits the buffer. */
  lemma {:induction false} BufferHolds(xs: seq<Sys>, ts: seq<Step>, n: nat)
    requires Run(xs, ts) && n < |xs|
    ensures |xs[n].c.wbuf| <= xs[n].c.wcap
  {
    hide Drain, Grown;
    if n > 0 {
      BufferHolds(xs, ts, n - 1);
      var x, t := xs[n - 1], ts[n - 1];
      if t.DoDrain? { DrainRoom(x.c, t.script, t.chunks); }
    }
  }

  /** With writes of at most m bytes each, one turn of the write loop stops within m bytes of a megabyte. */
  lemma {:induction false} WriteLoopBudget(c: Conn, script: seq<WriteResult>, spent: nat, m: nat)
    requires Valid(c) && spent < 1048576
    requires forall i :: 0 <= i < |script| && script[i].Wrote? ==> script[i].n <= m
    ensures |WriteLoop(c, script, spent).0.written| - |c.written| < 1048576 - spent + m
    decreases |script|
  {
    if c.woff < |c.wbuf| && script != [] {
      match script[0]
      case Wrote(n) =>
        var k := Least(n, |c.wbuf| - c.woff);
        if n > 0 && spent + k < 1048576 { WriteLoopBudget(Advance(c, n), script[1..], spent + k, m); }
      case Interrupted => WriteLoopBudget(c, script[1..], spent, m);
      case _ =>
    }
  }
}
