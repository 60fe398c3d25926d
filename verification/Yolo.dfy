/**
 * Post-processing of the detector's output tensor: candidates above a threshold, sorted by
 * score, thinned by greedy class-wise suppression.  Arithmetic is over the reals.
 */
module Yolo {
  import opened Common

  const MAX_DETS: nat := 32
  const MAX_ANCHORS: nat := 16384

  /** x1, y1, x2, y2, score and class of a detection. */
  datatype Box = Box(x1: real, y1: real, x2: real, y2: real, score: real, cls: int)

  // ---------------------------------------------------------------- the tensor

  /** ch rows of A anchors, flattened row by row (channels first) or anchor by anchor. */
  datatype Tensor = Tensor(buf: seq<real>, channelsFirst: bool, ch: nat, anchors: nat) {
    ghost predicate Valid() { |buf| == ch * anchors && ch >= 5 }

    function At(c: nat, a: nat): real
      requires Valid() && c < ch && a < anchors
    {
      IndexFits(c, ch, a, anchors);
      IndexFits(a, anchors, c, ch);
      if channelsFirst then buf[c * anchors + a] else buf[a * ch + c]
    }

    /** The class scores of one anchor. */
    function Scores(a: nat): (s: seq<real>)
      requires Valid() && a < anchors
      ensures |s| == ch - 4
      ensures forall c :: 0 <= c < ch - 4 ==> s[c] == At(4 + c, a)
    {
      seq(ch - 4, c requires 0 <= c < ch - 4 => At(4 + c, a))
    }
  }

  lemma IndexFits(c: nat, ch: nat, a: nat, anchors: nat)
    requires c < ch && a < anchors
    ensures 0 <= c * anchors + a < ch * anchors && ch * anchors == anchors * ch
  {
    assert (c + 1) * anchors <= ch * anchors;
  }

  /** Two layouts of the same values. */
  ghost predicate SameValues(t: Tensor, u: Tensor) {
    && t.Valid() && u.Valid() && t.ch == u.ch && t.anchors == u.anchors
    && forall c, a :: 0 <= c < t.ch && 0 <= a < t.anchors ==> t.At(c, a) == u.At(c, a)
  }

  /** The matrix stored row by row with `width` columns has v in that row and column. */
  predicate Stores(buf: seq<real>, width: nat, row: nat, col: nat, v: real) {
    row * width + col < |buf| && buf[row * width + col] == v
  }

  /** One buffer holds the tensor's rows one after the other, the other holds its columns. */
  ghost predicate Transposed(t: Tensor, u: Tensor) {
    && t.Valid() && u.Valid() && t.ch == u.ch && t.anchors == u.anchors && t.channelsFirst && !u.channelsFirst
    && forall c: nat, a: nat, v: real :: c < t.ch && a < t.anchors ==>
         (Stores(t.buf, t.anchors, c, a, v) <==> Stores(u.buf, t.ch, a, c, v))
  }

  lemma TransposedSame(t: Tensor, u: Tensor)
    requires Transposed(t, u)
    ensures SameValues(t, u)
  {
    forall c, a | 0 <= c < t.ch && 0 <= a < t.anchors ensures t.At(c, a) == u.At(c, a) {
      IndexFits(c, t.ch, a, t.anchors);
      assert Stores(t.buf, t.anchors, c, a, t.At(c, a));
    }
  }

  // ---------------------------------------------------------------- the best class of an anchor

  /** Best score among the first n classes and its class, by the running comparison; -1 and 0 to begin with. */
  function Best(scores: seq<real>, n: nat): (real, nat)
    requires n <= |scores|
  {
    if n == 0 then (-1.0, 0)
    else
      var (s, c) := Best(scores, n - 1);
      if scores[n - 1] > s then (scores[n - 1], n - 1) else (s, c)
  }

  /** The running comparison finds the maximum and, among equals, the lowest class. */
  lemma {:induction false} BestIsMaximum(scores: seq<real>, n: nat)
    requires n <= |scores|
    ensures var (s, c) := Best(scores, n);
            && s >= -1.0
            && (forall k :: 0 <= k < n ==> scores[k] <= s)
            && (s > -1.0 ==> c < n && scores[c] == s && forall k :: 0 <= k < c ==> scores[k] < s)
            && (s == -1.0 ==> c == 0)
  {
    if n > 0 {
      BestIsMaximum(scores, n - 1);
    }
  }

  // ---------------------------------------------------------------- candidates

  /** Inverse letterbox mapping, frame size and confidence threshold. */
  datatype Setup = Setup(scale: real, padX: real, padY: real, frameW: real, frameH: real, conf: real)

  function Factor(g: Setup): real { if g.scale > 0.0 then 1.0 / g.scale else 1.0 }

  function Shift(g: Setup, pad: real): real { if g.scale > 0.0 then -pad * Factor(g) else 0.0 }

  function Oversize(b: Box, g: Setup): bool {
    (b.x2 - b.x1) * (b.y2 - b.y1) > 0.85 * g.frameW * g.frameH
  }

  function Decoded(g: Setup, cx: real, cy: real, bw: real, bh: real, score: real, cls: int): Box {
    var f, ox, oy := Factor(g), Shift(g, g.padX), Shift(g, g.padY);
    Box((cx - bw * 0.5) * f + ox, (cy - bh * 0.5) * f + oy,
        (cx + bw * 0.5) * f + ox, (cy + bh * 0.5) * f + oy, score, cls)
  }

  /** The candidate anchor a gives when its best score and class are as stated. */
  function Candidate(t: Tensor, g: Setup, a: nat, score: real, cls: int): Option<Box>
    requires t.Valid() && a < t.anchors
  {
    if score < g.conf then None
    else
      var b := Decoded(g, t.At(0, a), t.At(1, a), t.At(2, a), t.At(3, a), score, cls);
      if Oversize(b, g) then None else Some(b)
  }

  function AnchorCandidate(t: Tensor, g: Setup, a: nat): Option<Box>
    requires t.Valid() && a < t.anchors
  {
    var (s, c) := Best(t.Scores(a), t.ch - 4);
    Candidate(t, g, a, s, c)
  }

  function Kept(before: seq<Box>, b: Option<Box>): seq<Box> {
    if |before| < MAX_DETS && b.Some? then before + [b.value] else before
  }

  /** The first 32 candidates among the first n anchors. */
  function Candidates(t: Tensor, g: Setup, n: nat): (cs: seq<Box>)
    requires t.Valid() && n <= t.anchors
    ensures |cs| <= MAX_DETS
  {
    if n == 0 then [] else Kept(Candidates(t, g, n - 1), AnchorCandidate(t, g, n - 1))
  }

  /** A full list stays as it is. */
  lemma {:induction false} CandidatesFull(t: Tensor, g: Setup, n: nat, m: nat)
    requires t.Valid() && n <= m <= t.anchors && |Candidates(t, g, n)| == MAX_DETS
    ensures Candidates(t, g, m) == Candidates(t, g, n)
    decreases m
  {
    if n < m {
      CandidatesFull(t, g, n, m - 1);
    }
  }

  /** Anchor-major scan: the fallback for large tensors and the scan of the anchor-first layout. */
  method ScanAnchors(t: Tensor, g: Setup) returns (cand: seq<Box>)
    requires t.Valid()
    ensures cand == Candidates(t, g, t.anchors)
  {
    hide Candidate, Tensor.At;
    cand := [];
    var a: nat := 0;
    while a < t.anchors && |cand| < MAX_DETS
      invariant a <= t.anchors && cand == Candidates(t, g, a)
    {
      var bi, bests := 0, -1.0;
      ghost var scores := t.Scores(a);
      for c := 0 to t.ch - 4
        invariant (bests, bi) == Best(scores, c)
      {
        var s := t.At(4 + c, a);
        if s > bests {
          bests, bi := s, c;
        }
      }
      var b := Candidate(t, g, a, bests, bi);
      if b.Some? {
        cand := cand + [b.value];
      }
      a := a + 1;
    }
    CandidatesComplete(t, g, a);
  }

  lemma CandidatesComplete(t: Tensor, g: Setup, n: nat)
    requires t.Valid() && n <= t.anchors && (n == t.anchors || |Candidates(t, g, n)| == MAX_DETS)
    ensures Candidates(t, g, t.anchors) == Candidates(t, g, n)
  {
    if n < t.anchors {
      CandidatesFull(t, g, n, t.anchors);
    }
  }

  // ---------------------------------------------------------------- the class-major scan

  /** What the fast scan finds for an anchor: a class left from an earlier call if no score exceeds -1. */
  function FastBest(scores: seq<real>, n: nat, stale: int): (real, int)
    requires n <= |scores|
  {
    var (s, c) := Best(scores, n);
    (s, if s > -1.0 then c else stale)
  }

  function FastCandidates(t: Tensor, g: Setup, stale: seq<int>, n: nat): (cs: seq<Box>)
    requires t.Valid() && n <= t.anchors && |stale| >= n
    ensures |cs| <= MAX_DETS
  {
    if n == 0 then []
    else
      var (s, c) := FastBest(t.Scores(n - 1), t.ch - 4, stale[n - 1]);
      Kept(FastCandidates(t, g, stale, n - 1), Candidate(t, g, n - 1, s, c))
  }

  lemma {:induction false} BestAtLeast(scores: seq<real>, n: nat)
    requires n <= |scores|
    ensures Best(scores, n).0 >= -1.0
  {
    if n > 0 {
      BestAtLeast(scores, n - 1);
    }
  }

  /** The buffers after the first c class rows: the running best of every anchor. */
  ghost predicate RowsDone(t: Tensor, best: seq<real>, bestc: seq<int>, stale: seq<int>, c: nat)
    requires t.Valid() && c <= t.ch - 4 && |best| >= t.anchors && |bestc| >= t.anchors && |stale| >= t.anchors
  {
    forall a :: 0 <= a < t.anchors ==> (best[a], bestc[a]) == FastBest(t.Scores(a), c, stale[a])
  }

  /** One class row, anchor by anchor in memory order. */
  method ScanRow(t: Tensor, c: nat, best: array<real>, bestc: array<int>, ghost stale: seq<int>)
    requires t.Valid() && c < t.ch - 4 && best.Length >= t.anchors && bestc.Length >= t.anchors
    requires |stale| >= t.anchors && RowsDone(t, best[..], bestc[..], stale, c)
    modifies best, bestc
    ensures RowsDone(t, best[..], bestc[..], stale, c + 1)
  {
    hide Tensor.At;
    for a := 0 to t.anchors
      invariant forall k :: 0 <= k < a ==> (best[k], bestc[k]) == FastBest(t.Scores(k), c + 1, stale[k])
      invariant forall k :: a <= k < t.anchors ==> (best[k], bestc[k]) == FastBest(t.Scores(k), c, stale[k])
    {
      var s := t.At(4 + c, a);
      BestAtLeast(t.Scores(a), c);
      if s > best[a] {
        best[a], bestc[a] := s, c;
      }
    }
  }

  /** Class-major scan, one contiguous row per class, over buffers left from earlier calls. */
  method ScanClasses(t: Tensor, g: Setup, best: array<real>, bestc: array<int>) returns (cand: seq<Box>)
    requires t.Valid() && best.Length >= t.anchors && bestc.Length >= t.anchors
    modifies best, bestc
    ensures cand == FastCandidates(t, g, old(bestc[..]), t.anchors)
  {
    hide Candidate, Tensor.At;
    ghost var stale := bestc[..];
    for a := 0 to t.anchors
      invariant bestc[..] == stale && forall k :: 0 <= k < a ==> best[k] == -1.0
    {
      best[a] := -1.0;
    }
    for c := 0 to t.ch - 4
      invariant RowsDone(t, best[..], bestc[..], stale, c)
    {
      ScanRow(t, c, best, bestc, stale);
    }
    cand := [];
    var a: nat := 0;
    while a < t.anchors && |cand| < MAX_DETS
      invariant RowsDone(t, best[..], bestc[..], stale, t.ch - 4)
      invariant a <= t.anchors && cand == FastCandidates(t, g, stale, a)
    {
      assert (best[..][a], bestc[..][a]) == FastBest(t.Scores(a), t.ch - 4, stale[a]);
      var b := Candidate(t, g, a, best[a], bestc[a]);
      if b.Some? {
        cand := cand + [b.value];
      }
      a := a + 1;
    }
    FastFull(t, g, stale, a, t.anchors);
  }

  lemma {:induction false} FastFull(t: Tensor, g: Setup, stale: seq<int>, n: nat, m: nat)
    requires t.Valid() && n <= m <= t.anchors && |stale| >= t.anchors
    requires n == t.anchors || |FastCandidates(t, g, stale, n)| == MAX_DETS
    ensures FastCandidates(t, g, stale, m) == FastCandidates(t, g, stale, n)
    decreases m
  {
    if n < m {
      FastFull(t, g, stale, n, m - 1);
    }
  }

  /** Anchor a reaches the list with a class that no score of this call determined. */
  ghost predicate Exposed(t: Tensor, g: Setup, a: nat)
    requires t.Valid() && a < t.anchors
  {
    && g.conf <= -1.0 && Best(t.Scores(a), t.ch - 4).0 == -1.0
    && AnchorCandidate(t, g, a).Some? && |Candidates(t, g, a)| < MAX_DETS
  }

  lemma CandidateClass(t: Tensor, g: Setup, a: nat, s: real, c: int, d: int)
    requires t.Valid() && a < t.anchors
    ensures Candidate(t, g, a, s, c).Some? <==> Candidate(t, g, a, s, d).Some?
    ensures Candidate(t, g, a, s, c).Some? ==> (Candidate(t, g, a, s, c) == Candidate(t, g, a, s, d) <==> c == d)
  {
    hide Tensor.At;
  }

  /**
   * The fast scan returns the same list as the anchor-major scan exactly when no anchor is listed
   * with a left-over class; in particular always for thresholds above -1.
   */
  lemma {:induction false} FastScanAgreesIff(t: Tensor, g: Setup, stale: seq<int>, n: nat)
    requires t.Valid() && n <= t.anchors && |stale| >= t.anchors
    ensures |FastCandidates(t, g, stale, n)| == |Candidates(t, g, n)|
    ensures FastCandidates(t, g, stale, n) == Candidates(t, g, n)
            <==> forall a :: 0 <= a < n && Exposed(t, g, a) ==> stale[a] == 0
  {
    if n > 0 {
      hide Tensor.At, Candidate;
      FastScanAgreesIff(t, g, stale, n - 1);
      var a := n - 1;
      var (s, c) := Best(t.Scores(a), t.ch - 4);
      var (fs, fc) := FastBest(t.Scores(a), t.ch - 4, stale[a]);
      BestIsMaximum(t.Scores(a), t.ch - 4);
      CandidateClass(t, g, a, s, c, fc);
      KeptSame(FastCandidates(t, g, stale, a), Candidates(t, g, a), Candidate(t, g, a, s, fc), Candidate(t, g, a, s, c));
      assert s == -1.0 && Candidate(t, g, a, s, c).Some? ==> g.conf <= -1.0 by { AcceptedScore(t, g, a, s, c); }
    }
  }

  lemma AcceptedScore(t: Tensor, g: Setup, a: nat, s: real, c: int)
    requires t.Valid() && a < t.anchors
    ensures Candidate(t, g, a, s, c).Some? ==> s >= g.conf
  {
  }

  lemma KeptSame(xs: seq<Box>, ys: seq<Box>, x: Option<Box>, y: Option<Box>)
    requires |xs| == |ys| && (x.Some? <==> y.Some?)
    ensures |Kept(xs, x)| == |Kept(ys, y)|
    ensures Kept(xs, x) == Kept(ys, y) <==> xs == ys && (|xs| < MAX_DETS ==> x == y)
  {
    if |xs| < MAX_DETS && x.Some? {
      assert Kept(xs, x)[..|xs|] == xs && Kept(ys, y)[..|ys|] == ys;
      assert Kept(xs, x)[|xs|] == x.value && Kept(ys, y)[|ys|] == y.value;
    }
  }

  /** For every threshold above -1 the left-over classes do not matter. */
  lemma FastScanAgrees(t: Tensor, g: Setup, stale: seq<int>)
    requires t.Valid() && |stale| >= t.anchors && g.conf > -1.0
    ensures FastCandidates(t, g, stale, t.anchors) == Candidates(t, g, t.anchors)
  {
    FastScanAgreesIff(t, g, stale, t.anchors);
  }

  /** The other layout gives the candidates of the transposed tensor. */
  lemma LayoutIndependent(t: Tensor, u: Tensor, g: Setup)
    requires Transposed(t, u)
    ensures Candidates(t, g, t.anchors) == Candidates(u, g, u.anchors)
  {
    TransposedSame(t, u);
    SameCandidates(t, u, g, t.anchors);
  }

  lemma {:induction false} SameCandidates(t: Tensor, u: Tensor, g: Setup, n: nat)
    requires SameValues(t, u) && n <= t.anchors
    ensures Candidates(t, g, n) == Candidates(u, g, n)
  {
    if n > 0 {
      SameCandidates(t, u, g, n - 1);
      var a := n - 1;
      assert t.Scores(a) == u.Scores(a);
      assert t.At(0, a) == u.At(0, a) && t.At(1, a) == u.At(1, a) && t.At(2, a) == u.At(2, a) && t.At(3, a) == u.At(3, a);
      hide Tensor.At, Tensor.Scores, Best, Decoded, Oversize;
    }
  }

  // ---------------------------------------------------------------- what the candidates are

  /**
   * Mapping the box forward, by the scale and the padding the picture was put into the model's input
   * with, gives back the model's box around (cx, cy); without a scale it is that box.
   */
  ghost predicate Letterboxed(g: Setup, b: Box, cx: real, cy: real, bw: real, bh: real) {
    if g.scale > 0.0 then
      && b.x1 * g.scale + g.padX == cx - bw / 2.0 && b.x2 * g.scale + g.padX == cx + bw / 2.0
      && b.y1 * g.scale + g.padY == cy - bh / 2.0 && b.y2 * g.scale + g.padY == cy + bh / 2.0
    else
      && b.x1 == cx - bw / 2.0 && b.x2 == cx + bw / 2.0
      && b.y1 == cy - bh / 2.0 && b.y2 == cy + bh / 2.0
  }

  /** Score s is the highest of the scores, class c the first that has it; -1 and 0 where no score exceeds -1. */
  ghost predicate Top(scores: seq<real>, s: real, c: int) {
    && (forall k :: 0 <= k < |scores| ==> scores[k] <= s)
    && if s == -1.0 then c == 0
       else s > -1.0 && 0 <= c < |scores| && scores[c] == s && forall k :: 0 <= k < c ==> scores[k] < s
  }

  /** Box b is the model's box at anchor a in the picture, good enough and not oversized. */
  ghost predicate ComesFrom(t: Tensor, g: Setup, a: nat, b: Box)
    requires t.Valid() && a < t.anchors
  {
    && Letterboxed(g, b, t.At(0, a), t.At(1, a), t.At(2, a), t.At(3, a))
    && Top(t.Scores(a), b.score, b.cls) && b.score >= g.conf
    && (b.x2 - b.x1) * (b.y2 - b.y1) <= 0.85 * g.frameW * g.frameH
  }

  /** Undoing a scale and an offset. */
  lemma Unmap(s: real, pad: real, v: real, x: real)
    requires s > 0.0
    ensures x == v * (1.0 / s) + -pad * (1.0 / s) <==> x * s + pad == v
  {
    var f := 1.0 / s;
    assert f * s == 1.0;
    assert v * f + -pad * f == (v - pad) * f;
    assert ((v - pad) * f) * s == (v - pad) * (f * s);
    if x * s + pad == v {
      assert x == x * (s * f) == (x * s) * f;
    }
  }

  lemma Placed(g: Setup, pad: real, v: real, x: real)
    requires g.scale > 0.0
    ensures x == v * Factor(g) + Shift(g, pad) <==> x * g.scale + pad == v
  {
    Unmap(g.scale, pad, v, x);
  }

  lemma DecodedIff(g: Setup, cx: real, cy: real, bw: real, bh: real, b: Box)
    ensures b == Decoded(g, cx, cy, bw, bh, b.score, b.cls) <==> Letterboxed(g, b, cx, cy, bw, bh)
  {
    var dx, dy := bw / 2.0, bh / 2.0;
    assert bw * 0.5 == dx && bh * 0.5 == dy;
    if g.scale > 0.0 {
      Placed(g, g.padX, cx - dx, b.x1);
      Placed(g, g.padY, cy - dy, b.y1);
      Placed(g, g.padX, cx + dx, b.x2);
      Placed(g, g.padY, cy + dy, b.y2);
      hide Factor, Shift;
    }
  }

  lemma TopIff(scores: seq<real>, s: real, c: int)
    ensures Top(scores, s, c) <==> Best(scores, |scores|) == (s, c)
  {
    BestIsMaximum(scores, |scores|);
  }

  /** An anchor gives exactly the box that comes from it, if there is one. */
  lemma CandidateIff(t: Tensor, g: Setup, a: nat, b: Box)
    requires t.Valid() && a < t.anchors
    ensures AnchorCandidate(t, g, a) == Some(b) <==> ComesFrom(t, g, a, b)
  {
    var (s, c) := Best(t.Scores(a), t.ch - 4);
    TopIff(t.Scores(a), b.score, b.cls);
    DecodedIff(g, t.At(0, a), t.At(1, a), t.At(2, a), t.At(3, a), b);
    hide Tensor.At, Best, Top, Letterboxed;
  }

  /**
   * The candidates come from anchors, in anchor order; unless the list is full, from every anchor that
   * a box comes from, and otherwise from every one up to the last that is listed.
   */
  lemma {:induction false} CandidatesMeaning(t: Tensor, g: Setup, n: nat) returns (from: seq<nat>)
    requires t.Valid() && n <= t.anchors
    ensures var cs := Candidates(t, g, n);
            && |from| == |cs| && (forall k :: 0 <= k < |cs| ==> from[k] < n && ComesFrom(t, g, from[k], cs[k]))
            && (forall j, k :: 0 <= j < k < |from| ==> from[j] < from[k])
            && forall a: nat, b :: a < n && (|cs| < 32 || a <= from[31]) && ComesFrom(t, g, a, b) ==> a in from
  {
    hide Tensor.At, AnchorCandidate, ComesFrom;
    if n == 0 {
      from := [];
    } else {
      var before := CandidatesMeaning(t, g, n - 1);
      var c := AnchorCandidate(t, g, n - 1);
      var full := |Candidates(t, g, n - 1)| == 32;
      from := if !full && c.Some? then before + [n - 1] else before;
      if c.Some? { CandidateIff(t, g, n - 1, c.value); }
      forall a: nat, b | a < n && (|from| < 32 || a <= from[31]) && ComesFrom(t, g, a, b) ensures a in from {
        if a == n - 1 {
          CandidateIff(t, g, a, b);
          assert !full ==> from[|from| - 1] == n - 1;
        } else {
          assert a in before;
        }
      }
    }
  }

  /** With a threshold of -2 a single anchor whose only score is -1.5 shows the class left over for it. */
  lemma LeftoverClass(g: Setup, stale: int)
    requires g == Setup(0.0, 0.0, 0.0, 100.0, 100.0, -2.0) && stale != 0
    ensures var t := Tensor([5.0, 5.0, 2.0, 2.0, -1.5], true, 5, 1);
            t.Valid() && FastCandidates(t, g, [stale], 1) != Candidates(t, g, 1)
  {
    var t := Tensor([5.0, 5.0, 2.0, 2.0, -1.5], true, 5, 1);
    assert t.At(0, 0) == 5.0 && t.At(1, 0) == 5.0 && t.At(2, 0) == 2.0 && t.At(3, 0) == 2.0 && t.At(4, 0) == -1.5;
    assert t.Scores(0) == [-1.5];
    assert Best([-1.5], 0) == (-1.0, 0) && Best([-1.5], 1) == (-1.0, 0);
    FastScanAgreesIff(t, g, [stale], 1);
    assert Exposed(t, g, 0);
  }
}
