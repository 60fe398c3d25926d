/** The connection object of the HTTP server in place. */
module HttpConnImpl {
  import opened Common
  import opened Bytes
  import opened HttpConn

  class HttpConnection {
    var wbuf: seq<Byte>
    var wcap: nat
    var woff: nat
    var src: Option<seq<Byte>>
    var srcRemain: nat
    var closed: bool
    ghost var finished: bool
    /** Everything the socket took. */
    ghost var written: seq<Byte>

    ghost predicate Valid()
      reads this
    {
      HttpConn.Valid(Value())
    }

    ghost function Value(): Conn
      reads this
    {
      Conn(wbuf, wcap, woff, src, srcRemain, closed, finished, written)
    }

    constructor ()
      ensures Valid() && Value() == NEW_CONN
    {
      wbuf, wcap, woff, src, srcRemain, closed := [], WBUF_INIT, 0, None, 0, false;
      finished, written := false, [];
    }

    method Close(ghost all: bool)
      modifies `closed, `finished
      ensures closed && finished == all
    {
      closed := true;
      finished := all;
    }

    method Append(data: seq<Byte>, memOk: bool) returns (ok: bool)
      requires Valid()
      modifies this
      ensures Valid() && Value() == HttpConn.Append(old(Value()), data, memOk)
      ensures ok == !(closed && !old(closed))
    {
      hide Grown;
      if closed || |data| == 0 {
        return true;
      }
      if |wbuf| + |data| > WBUF_MAX {
        Close(false);
        return false;
      }
      if |wbuf| + |data| > wcap {
        var cap := Enlarge(2 * wcap, |wbuf| + |data|);
        if !memOk {
          Close(false);
          return false;
        }
        GrownPositive(2 * wcap, |wbuf| + |data|);
        wcap := cap;
      }
      wbuf := wbuf + data;
      return true;
    }

    method ServeStream(header: seq<Byte>, file: seq<Byte>, size: nat, memOk: bool)
      requires Valid()
      modifies this
      ensures Valid() && Value() == Serve(old(Value()), header, file, size, memOk)
    {
      var _ := Append(header, memOk);
      src := Some(file);
      srcRemain := size;
    }

    /** Fills the buffer from the source up to its capacity. */
    method SrcFill(chunks: seq<nat>) returns (rest: seq<nat>)
      requires Valid() && src.Some? && !closed
      modifies this
      ensures Valid() && (Value(), rest) == HttpConn.SrcFill(old(Value()), chunks)
    {
      hide Least, ReadSize, Later;
      ghost var c := Value();
      rest := chunks;
      while |wbuf| < wcap && srcRemain > 0
        invariant Valid() && src.Some? && !closed
        invariant FillLoop(Value(), rest) == FillLoop(c, chunks)
        decreases srcRemain
      {
        var want := Least(wcap - |wbuf|, srcRemain);
        var n := ReadSize(want, |src.value|, rest);
        rest := Later(rest);
        if n == 0 {
          Close(false);
          return;
        }
        wbuf := wbuf + src.value[..n];
        src := Some(src.value[n..]);
        srcRemain := srcRemain - n;
      }
      if srcRemain == 0 {
        src := None;
      }
    }

    /** The write loop of one drain. */
    method WriteOut(script: seq<WriteResult>) returns (rest: seq<WriteResult>)
      requires Valid()
      modifies this
      ensures Valid() && (Value(), rest) == WriteLoop(old(Value()), script, 0)
    {
      hide Least;
      ghost var c := Value();
      var spent: nat := 0;
      rest := script;
      while woff < |wbuf| && rest != []
        invariant Valid() && WriteLoop(Value(), rest, spent) == WriteLoop(c, script, 0)
        decreases |rest|
      {
        var result := rest[0];
        rest := rest[1..];
        match result {
          case Wrote(n) =>
            if n == 0 {
              Close(false);
              return;
            }
            var k := Least(n, |wbuf| - woff);
            written := written + wbuf[woff..woff + k];
            woff := woff + k;
            spent := spent + k;
            if spent >= BUDGET {
              return;
            }
          case Interrupted =>
          case WouldBlock =>
            return;
          case Broken =>
            Close(false);
            return;
        }
      }
    }

    /** Sends what the socket takes; refills from the source, and finishes when nothing is left. */
    method Drain(script: seq<WriteResult>, chunks: seq<nat>)
      requires Valid() && !closed
      modifies this
      ensures Valid() && Value() == HttpConn.Drain(old(Value()), script, chunks).0
      decreases srcRemain
    {
      hide WriteLoop, FillLoop;
      WriteLoopKeeps(Value(), script, 0);
      var rest := WriteOut(script);
      if closed {
        return;
      }
      if woff >= |wbuf| {
        wbuf, woff := [], 0;
        if src.Some? {
          FillCounts(Value(), chunks);
          var later := SrcFill(chunks);
          if closed {
            return;
          }
          if |wbuf| > 0 {
            Drain(rest, later);
            return;
          }
          if src.None? {
            Close(true);
            return;
          }
          return;
        }
        Close(true);
      }
    }
  }

  method Enlarge(cap: nat, need: nat) returns (r: nat)
    requires cap > 0
    ensures r == Grown(cap, need)
  {
    r := cap;
    while r < need
      invariant r > 0 && Grown(r, need) == Grown(cap, need)
      decreases need - r
    {
      r := r * 2;
    }
  }
}
