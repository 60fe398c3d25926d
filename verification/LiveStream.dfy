/** What a player of the live stream sees: the fragments sent decode to the pictures queued. */
module LiveStream {
  import opened Common
  import opened Bytes
  import opened AnnexB
  import opened Avcc
  import opened Moov
  import opened Recording
  import opened Demux
  import opened Fragments
  import opened StreamRing
  import opened StreamRuns

  /** Leaving out units never makes the length-prefixed form longer. */
  lemma {:induction false} VclShorter(nals: seq<Nal>)
    ensures |Prefixed(Vcl(nals))| <= |Prefixed(nals)|
  {
    hide Be32, IsVcl;
    if nals != [] {
      VclShorter(nals[1..]);
      var v := Vcl(nals[1..]);
      assert ([nals[0]] + v)[1..] == v;
    }
  }

  lemma SampleBound(d: seq<Byte>)
    ensures 3 * |Sample(d)| <= 4 * |d|
  {
    StoredBound(d, 0);
    VclShorter(Walk(d, 0));
    hide Walk, Prefixed, Vcl;
  }

  /** The interval fits 32 bits. */
  lemma IntervalBound(last: nat, ts: nat, default: nat)
    requires default < TWO32
    ensures Interval(last, ts, default) < TWO32
  {
  }

  /** One fragment reads back as its number, key flag, times and pictures. */
  lemma FragmentReads(number: nat, e: StreamRing.Entry, last: nat, origin: nat, default: nat)
    requires number < TWO32 && default < TWO32 && |e.data| <= StreamRing.MAX_FRAME
    ensures var r := ReadFragment(FragmentOf(number, e, last, origin, default));
            r.Some? && r.value.track == 1 && r.value.number == number && r.value.key == e.key
            && r.value.time == 90 * ((e.ts - origin) % TWO32) && r.value.duration == Interval(last, e.ts, default)
            && Unprefix(r.value.sample) == Vcl(Walk(e.data, 0))
  {
    hide Unprefix, Walk, Fragment, ReadFragment, Prefixed, Vcl, Interval;
    SampleBound(e.data);
    IntervalBound(last, e.ts, default);
    FragmentRoundTrip(number, e.key, (e.ts - origin) % TWO32 * 90, Interval(last, e.ts, default), Sample(e.data));
    UnprefixPrefixed(Vcl(Walk(e.data, 0)));
  }

  /** Positions of the frames that have picture data. */
  function Shown(es: seq<StreamRing.Entry>): seq<nat> {
    if es == [] then []
    else
      var m := |es| - 1;
      Shown(es[..m]) + if Sample(es[m].data) == [] then [] else [m]
  }

  /** They are listed in order, and none is left out. */
  lemma {:induction false} ShownMeaning(es: seq<StreamRing.Entry>)
    ensures var ks := Shown(es);
            && (forall j :: 0 <= j < |ks| ==> ks[j] < |es| && Sample(es[ks[j]].data) != [])
            && (forall i, j :: 0 <= i < j < |ks| ==> ks[i] < ks[j])
            && (forall k :: 0 <= k < |es| && Sample(es[k].data) != [] ==> k in ks)
  {
    hide SampleFrom, Walk, Vcl;
    if es != [] {
      var m := |es| - 1;
      var before := Shown(es[..m]);
      ShownMeaning(es[..m]);
      forall k | 0 <= k < |es| && Sample(es[k].data) != [] ensures k in Shown(es) {
        if k < m {
          assert es[..m][k] == es[k];
          assert k in before;
        }
      }
    }
  }

  /** The time between a frame and the one before it, in milliseconds; 0 for the first one. */
  function Gap(es: seq<StreamRing.Entry>, k: nat): nat
    requires k < |es|
  {
    if k == 0 then 0 else (es[k].ts - es[k - 1].ts) % TWO32
  }

  /** What a player reads from the fragment of frame k, the j-th that has a picture. */
  ghost predicate Reads(r: Option<Piece>, es: seq<StreamRing.Entry>, default: nat, j: nat, k: nat)
    requires k < |es|
  {
    && r.Some? && r.value.track == 1 && r.value.number == j + 1 && r.value.key == es[k].key
    && Unprefix(r.value.sample) == Vcl(Walk(es[k].data, 0))
    && r.value.time == 90 * ((es[k].ts - es[0].ts) % TWO32)
    && r.value.duration == (if 0 < Gap(es, k) < 500 && es[k - 1].ts != 0 then 90 * Gap(es, k) else default)
  }

  lemma ReadsLast(es: seq<StreamRing.Entry>, default: nat, j: nat)
    requires es != [] && Queueable(es) && default < TWO32 && j + 1 < TWO32
    ensures var m := |es| - 1;
            Reads(ReadFragment(FragmentOf(j + 1, es[m], LastTs(es[..m]), es[0].ts, default)), es, default, j, m)
  {
    hide FragmentOf, ReadFragment, Unprefix, Walk, Vcl;
    var m := |es| - 1;
    FragmentReads(j + 1, es[m], LastTs(es[..m]), es[0].ts, default);
  }

  /** What holds of a frame among the first ones holds among all. */
  lemma ReadsEarlier(r: Option<Piece>, es: seq<StreamRing.Entry>, default: nat, j: nat, k: nat)
    requires k < |es| - 1 && Reads(r, es[..|es| - 1], default, j, k)
    ensures Reads(r, es, default, j, k)
  {
    hide Unprefix, Walk, Vcl;
  }

  lemma {:induction false} WireReads(es: seq<StreamRing.Entry>, default: nat, j: nat)
    requires es != [] && Queueable(es) && default < TWO32 && |es| < TWO32
    requires j < |Wire(es, es[0].ts, default)|
    ensures j < |Shown(es)| == |Wire(es, es[0].ts, default)| && Shown(es)[j] < |es|
    ensures Reads(ReadFragment(Wire(es, es[0].ts, default)[j]), es, default, j, Shown(es)[j])
  {
    var m := |es| - 1;
    hide FragmentOf, ReadFragment, SampleFrom, Reads, Queueable;
    ShownCounts(es[..m], es[0].ts, default, j);
    ShownCounts(es, es[0].ts, default, j);
    var before := Wire(es[..m], es[0].ts, default);
    if j < |before| {
      assert es[..m][0] == es[0];
      QueueablePrefix(es, m);
      WireReads(es[..m], default, j);
      ReadsEarlier(ReadFragment(before[j]), es, default, j, Shown(es[..m])[j]);
    } else {
      ReadsLast(es, default, j);
    }
  }

  lemma {:induction false} ShownCounts(es: seq<StreamRing.Entry>, origin: nat, default: nat, j: nat)
    ensures |Shown(es)| == |Wire(es, origin, default)| <= |es|
    ensures j < |Shown(es)| ==> Shown(es)[j] < |es|
  {
    hide FragmentOf, SampleFrom;
    if es != [] {
      ShownCounts(es[..|es| - 1], origin, default, j);
    }
  }

  lemma QueueablePrefix(es: seq<StreamRing.Entry>, m: nat)
    requires Queueable(es) && m <= |es|
    ensures Queueable(es[..m])
  {
  }

  /** Times are counted from the frame the client joined at. */
  ghost predicate Counted(x: System) {
    && (x.c.taken != [] ==> x.c.origin == x.c.taken[0].ts)
    && (x.c.phase.Ready? || x.c.phase.Sending? ==> x.c.joined < |x.log| && x.c.origin == x.log[x.c.joined].ts)
  }

  lemma ClientCounted(x: System, t: StreamRuns.Step)
    requires StreamRuns.Inv(x) && RingShaped(x.s) && x.c.cursor >= -1 && StreamRuns.Enabled(x, t) && Counted(x)
    requires t.SeeConfig? || t.Join? || t.Take? || t.Sent? || t.Close?
    ensures Counted(StreamRuns.Next(x, t))
  {
    hide Wire, FragmentOf, SampleFrom;
    LookIsLog(x.s, x.log, x.c.epoch, x.c.cursor);
    if t.Join? {
      var w := Window(x.s.ring, x.s.head, x.s.count);
      var k := NewestKey(w);
      if k.Some? {
        assert w[k.value] == x.log[|x.log| - x.s.count + k.value];
      }
      hide NewestKey;
    }
    hide Look;
  }

  lemma ProducerCounted(x: System, t: StreamRuns.Step)
    requires RingShaped(x.s) && x.c.cursor >= -1 && StreamRuns.Enabled(x, t) && Counted(x)
    requires t.Config? || t.Frame? || t.End? || t.Stop?
    ensures Counted(StreamRuns.Next(x, t))
  {
    hide PushFrame, Look, NewestKey;
  }

  lemma {:induction false} RunCounted(xs: seq<System>, ts: seq<StreamRuns.Step>, n: nat)
    requires StreamRuns.Run(xs, ts) && n < |xs|
    ensures Counted(xs[n])
  {
    hide StreamRuns.Next, StreamRuns.Enabled, Counted;
    if n == 0 {
      StartCounted(xs[0]);
    } else {
      RunCounted(xs, ts, n - 1);
      RunOk(xs, ts, n - 1);
      hide StreamRuns.Inv, StreamRuns.Init;
      match ts[n - 1]
      case Config(_, _, _, _, _) => ProducerCounted(xs[n - 1], ts[n - 1]);
      case Frame(_, _, _, _) => ProducerCounted(xs[n - 1], ts[n - 1]);
      case End => ProducerCounted(xs[n - 1], ts[n - 1]);
      case Stop => ProducerCounted(xs[n - 1], ts[n - 1]);
      case _ => ClientCounted(xs[n - 1], ts[n - 1]);
    }
  }

  lemma StartCounted(x: System)
    requires StreamRuns.Init(x)
    ensures Counted(x)
  {
  }

  /**
   * End to end, in every interleaving: reading the j-th fragment a client was sent gives fragment
   * number j + 1, exactly the picture data of the frames the client consumed, in order, and the
   * frame's own times: decode time 0 at the frame it joined at and from there on the time passed, and
   * as duration the interval to the frame before, if there is one and it is shorter than 500 ms.
   */
  lemma PlayerSeesPictures(xs: seq<System>, ts: seq<StreamRuns.Step>, n: nat, j: nat)
    requires StreamRuns.Run(xs, ts) && n < |xs|
    requires j < |xs[n].c.wire| && |xs[n].c.taken| < TWO32
    ensures var c := xs[n].c;
            && j < |c.wire| == |Shown(c.taken)| && Shown(c.taken)[j] < |c.taken|
            && Reads(ReadFragment(c.wire[j]), c.taken, c.default, j, Shown(c.taken)[j])
  {
    ClientSeesConsecutive(xs, ts, n);
    RunBounds(xs, ts, n);
    RunCounted(xs, ts, n);
    assert Queueable(xs[n].c.taken);
    assert xs[n].c.taken != [] by { ShownCounts(xs[n].c.taken, xs[n].c.origin, xs[n].c.default, j); }
    hide Wire, Reads, ReadFragment, Unprefix, Shown, StreamRuns.Next, StreamRuns.Enabled;
    WireReads(xs[n].c.taken, xs[n].c.default, j);
  }
}
