/** Sorting the candidates and suppressing overlapping ones class by class. */
module Nms {
  import opened Yolo

  // ---------------------------------------------------------------- sorting

  /** Inserts b behind the last element whose score is not lower. */
  function Insert(s: seq<Box>, b: Box): (r: seq<Box>)
    ensures |r| == |s| + 1
  {
    if s == [] || s[|s| - 1].score >= b.score then s + [b]
    else Insert(s[..|s| - 1], b) + [s[|s| - 1]]
  }

  function Sorted(s: seq<Box>): (r: seq<Box>)
    ensures |r| == |s|
  {
    if s == [] then [] else Insert(Sorted(s[..|s| - 1]), s[|s| - 1])
  }

  ghost predicate Descending(s: seq<Box>) {
    forall i, j :: 0 <= i < j < |s| ==> s[i].score >= s[j].score
  }

  /** The elements with score v, in order. */
  function WithScore(s: seq<Box>, v: real): seq<Box> {
    if s == [] then []
    else WithScore(s[..|s| - 1], v) + if s[|s| - 1].score == v then [s[|s| - 1]] else []
  }

  lemma {:induction false} InsertDescending(s: seq<Box>, b: Box)
    requires Descending(s)
    ensures Descending(Insert(s, b))
    ensures forall x :: x in Insert(s, b) ==> x in s || x == b
  {
    if s != [] && s[|s| - 1].score < b.score {
      var m := |s| - 1;
      InsertDescending(s[..m], b);
      var r := Insert(s[..m], b);
      forall i | 0 <= i < |r| ensures r[i].score >= s[m].score {
        assert r[i] in r;
      }
    }
  }

  /** An element goes behind all elements of equal score. */
  lemma {:induction false} InsertStable(s: seq<Box>, b: Box, v: real)
    requires Descending(s)
    ensures WithScore(Insert(s, b), v) == WithScore(s, v) + if b.score == v then [b] else []
  {
    var r := Insert(s, b);
    if s == [] || s[|s| - 1].score >= b.score {
      assert r[..|r| - 1] == s;
    } else {
      var m := |s| - 1;
      InsertStable(s[..m], b, v);
      assert r[..|r| - 1] == Insert(s[..m], b);
      if b.score == v {
        NoneBelow(s, v);
      }
    }
  }

  /** The last element does not have score v if its score is lower. */
  lemma NoneBelow(s: seq<Box>, v: real)
    requires s != [] && s[|s| - 1].score < v
    ensures WithScore(s, v) == WithScore(s[..|s| - 1], v)
  {
  }

  lemma {:induction false} InsertMultiset(s: seq<Box>, b: Box)
    ensures multiset(Insert(s, b)) == multiset(s) + multiset{b}
  {
    if s != [] && s[|s| - 1].score < b.score {
      var m := |s| - 1;
      InsertMultiset(s[..m], b);
      assert s == s[..m] + [s[m]];
    }
  }

  lemma {:induction false} SortedDescending(s: seq<Box>)
    ensures Descending(Sorted(s))
  {
    if s != [] {
      hide Insert;
      var m := |s| - 1;
      SortedDescending(s[..m]);
      InsertDescending(Sorted(s[..m]), s[m]);
    }
  }

  lemma {:induction false} SortedPermutation(s: seq<Box>)
    ensures multiset(Sorted(s)) == multiset(s)
  {
    if s != [] {
      hide Insert;
      var m := |s| - 1;
      SortedPermutation(s[..m]);
      InsertMultiset(Sorted(s[..m]), s[m]);
      assert s == s[..m] + [s[m]];
    }
  }

  lemma {:induction false} SortedStable(s: seq<Box>, v: real)
    ensures WithScore(Sorted(s), v) == WithScore(s, v)
  {
    if s != [] {
      hide Insert;
      var m := |s| - 1;
      SortedStable(s[..m], v);
      SortedDescending(s[..m]);
      InsertStable(Sorted(s[..m]), s[m], v);
    }
  }

  /** The sort is a permutation, in descending score, that keeps the order of equal scores. */
  lemma SortedIsStablePermutation(s: seq<Box>)
    ensures Descending(Sorted(s))
    ensures multiset(Sorted(s)) == multiset(s)
    ensures forall v :: WithScore(Sorted(s), v) == WithScore(s, v)
  {
    hide Sorted, WithScore;
    SortedDescending(s);
    SortedPermutation(s);
    forall v ensures WithScore(Sorted(s), v) == WithScore(s, v) {
      SortedStable(s, v);
    }
  }

  lemma InsertSkips(s: seq<Box>, b: Box, j: nat)
    requires j <= |s| && forall k :: j <= k < |s| ==> s[k].score < b.score
    ensures Insert(s, b) == Insert(s[..j], b) + s[j..]
  {
    if j < |s| {
      var m := |s| - 1;
      InsertSkips(s[..m], b, j);
      assert s[..m][..j] == s[..j];
      assert s[..m][j..] + [s[m]] == s[j..];
    } else {
      assert s[..j] == s;
    }
  }

  /** Moves element i of the array back to its place among the sorted elements before it. */
  method InsertInPlace(a: array<Box>, i: nat)
    requires i < a.Length
    modifies a
    ensures a[..i + 1] == Insert(old(a[..i]), old(a[i]))
    ensures a[i + 1..] == old(a[i + 1..])
  {
    hide Insert;
    ghost var s := a[..i];
    var t := a[i];
    var j: int := i - 1;
    while j >= 0 && a[j].score < t.score
      invariant -1 <= j < i
      invariant a[..j + 1] == s[..j + 1]
      invariant forall k :: j + 1 <= k < i ==> a[k + 1] == s[k] && s[k].score < t.score
      invariant a[i + 1..] == old(a[i + 1..])
    {
      assert a[j] == a[..j + 1][j] == s[j];
      a[j + 1] := a[j];
      j := j - 1;
    }
    assert j >= 0 ==> a[j] == s[..j + 1][j];
    InsertPlace(s, t, j + 1);
    a[j + 1] := t;
    InsertedAt(a[..i + 1], s, t, j + 1);
  }

  lemma InsertedAt(r: seq<Box>, s: seq<Box>, b: Box, j: nat)
    requires j <= |s| && |r| == |s| + 1 && r[..j] == s[..j] && r[j] == b
    requires forall k :: j <= k < |s| ==> r[k + 1] == s[k]
    ensures r == s[..j] + [b] + s[j..]
  {
    forall k | 0 <= k < j ensures r[k] == s[k] {
      assert r[k] == r[..j][k];
    }
  }

  lemma InsertPlace(s: seq<Box>, b: Box, j: nat)
    requires j <= |s| && (forall k :: j <= k < |s| ==> s[k].score < b.score)
    requires j > 0 ==> s[j - 1].score >= b.score
    ensures Insert(s, b) == s[..j] + [b] + s[j..]
  {
    InsertSkips(s, b, j);
  }

  /** In-place insertion sort of the first n candidates. */
  method SortInPlace(a: array<Box>, n: nat)
    requires n <= a.Length
    modifies a
    ensures a[..n] == Sorted(old(a[..n])) && a[n..] == old(a[n..])
  {
    ghost var s := a[..];
    if n == 0 {
      return;
    }
    assert Sorted(s[..1]) == s[..1];
    for i := 1 to n
      invariant a[..i] == Sorted(s[..i]) && a[i..] == s[i..]
    {
      assert s[..i + 1][..i] == s[..i];
      assert a[i] == a[i..][0] == s[i];
      InsertInPlace(a, i);
      assert a[i + 1..] == s[i..][1..];
    }
  }

  // ---------------------------------------------------------------- suppression

  function Max(x: real, y: real): real { if x > y then x else y }

  function Min(x: real, y: real): real { if x < y then x else y }

  function Area(b: Box): real { (b.x2 - b.x1) * (b.y2 - b.y1) }

  function Overlap(a: Box, b: Box): real {
    (Min(a.x2, b.x2) - Max(a.x1, b.x1)) * (Min(a.y2, b.y2) - Max(a.y1, b.y1))
  }

  /** A kept box a suppresses b: same class, proper overlap, and a ratio to the union above the threshold. */
  predicate Suppresses(a: Box, b: Box, nms: real) {
    && a.cls == b.cls
    && Min(a.x2, b.x2) > Max(a.x1, b.x1) && Min(a.y2, b.y2) > Max(a.y1, b.y1)
    && var union := Area(a) + Area(b) - Overlap(a, b);
       union > 0.0 && Overlap(a, b) / union > nms
  }

  ghost predicate Hit(s: seq<Box>, kept: seq<nat>, j: nat, nms: real)
    requires j < |s|
  {
    exists k :: 0 <= k < |kept| && kept[k] < j && Suppresses(s[kept[k]], s[j], nms)
  }

  /** Indices kept among the first n candidates, at most `most` of them. */
  ghost function Greedy(s: seq<Box>, n: nat, most: nat, nms: real): (kept: seq<nat>)
    requires n <= |s|
    ensures |kept| <= most && |kept| <= n
    ensures forall k :: 0 <= k < |kept| ==> kept[k] < n
    ensures forall k, l :: 0 <= k < l < |kept| ==> kept[k] < kept[l]
  {
    if n == 0 then []
    else
      var before := Greedy(s, n - 1, most, nms);
      if |before| >= most || Hit(s, before, n - 1, nms) then before else before + [n - 1]
  }

  /** No earlier box of the list suppresses a later one. */
  ghost predicate Apart(s: seq<Box>, kept: seq<nat>, nms: real)
    requires forall k :: 0 <= k < |kept| ==> kept[k] < |s|
  {
    forall k, l :: 0 <= k < l < |kept| ==> !Suppresses(s[kept[k]], s[kept[l]], nms)
  }

  lemma ApartAppend(s: seq<Box>, kept: seq<nat>, j: nat, nms: real)
    requires (forall k :: 0 <= k < |kept| ==> kept[k] < j) && j < |s|
    requires Apart(s, kept, nms) && !Hit(s, kept, j, nms)
    ensures Apart(s, kept + [j], nms)
  {
    hide Suppresses;
  }

  /** No two kept boxes of one class overlap beyond the threshold. */
  lemma {:induction false} KeptApart(s: seq<Box>, n: nat, most: nat, nms: real)
    requires n <= |s|
    ensures Apart(s, Greedy(s, n, most, nms), nms)
  {
    if n > 0 {
      KeptApart(s, n - 1, most, nms);
      var before := Greedy(s, n - 1, most, nms);
      if Greedy(s, n, most, nms) != before {
        ApartAppend(s, before, n - 1, nms);
      }
    }
  }

  lemma GreedyStep(s: seq<Box>, n: nat, most: nat, nms: real)
    requires 0 < n <= |s|
    ensures var before := Greedy(s, n - 1, most, nms);
            |before| < most && !Hit(s, before, n - 1, nms) ==> n - 1 in Greedy(s, n, most, nms)
  {
    hide Suppresses;
    var before := Greedy(s, n - 1, most, nms);
    assert (before + [n - 1])[|before|] == n - 1;
  }

  /** Unless the limit was reached, every dropped candidate is suppressed by a kept one of at least its score. */
  lemma {:induction false} DroppedCovered(s: seq<Box>, n: nat, most: nat, nms: real, j: nat)
    requires n <= |s| && Descending(s) && j < n && j !in Greedy(s, n, most, nms)
    requires |Greedy(s, n, most, nms)| < most
    ensures exists k :: k in Greedy(s, n, most, nms) && k < j && s[k].score >= s[j].score && Suppresses(s[k], s[j], nms)
  {
    hide Suppresses;
    var before, kept := Greedy(s, n - 1, most, nms), Greedy(s, n, most, nms);
    assert forall k :: k in before ==> k in kept;
    if j < n - 1 {
      DroppedCovered(s, n - 1, most, nms, j);
    } else {
      GreedyStep(s, n, most, nms);
      assert Hit(s, before, j, nms);
    }
  }

  /** With room for all candidates the limit is never what drops one. */
  lemma DroppedCoveredWithRoom(s: seq<Box>, most: nat, nms: real, j: nat)
    requires Descending(s) && |s| <= most && j < |s| && j !in Greedy(s, |s|, most, nms)
    ensures exists k :: k in Greedy(s, |s|, most, nms) && k < j && s[k].score >= s[j].score
                        && Suppresses(s[k], s[j], nms)
  {
    var kept := Greedy(s, |s|, most, nms);
    hide Suppresses, Greedy;
    if |kept| == |s| {
      FullCovers(kept, |s|, j);
      assert false;
    }
    DroppedCovered(s, |s|, most, nms, j);
  }

  /** n increasing indices below n are all of them. */
  lemma {:induction false} FullCovers(kept: seq<nat>, n: nat, j: nat)
    requires |kept| == n && j < n
    requires forall k :: 0 <= k < n ==> kept[k] < n
    requires forall k, l :: 0 <= k < l < n ==> kept[k] < kept[l]
    ensures j in kept
  {
    Climb(kept, j);
    Descend(kept, n, j);
    assert kept[j] == j;
  }

  lemma {:induction false} Climb(kept: seq<nat>, j: nat)
    requires j < |kept| && forall k, l :: 0 <= k < l < |kept| ==> kept[k] < kept[l]
    ensures kept[j] >= j
  {
    if j > 0 {
      Climb(kept, j - 1);
    }
  }

  lemma {:induction false} Descend(kept: seq<nat>, n: nat, j: nat)
    requires j < |kept| == n && forall k, l :: 0 <= k < l < n ==> kept[k] < kept[l]
    requires forall k :: 0 <= k < n ==> kept[k] < n
    ensures kept[j] <= j
    decreases n - j
  {
    if j < n - 1 {
      Descend(kept, n, j + 1);
    }
  }

  function Pick(s: seq<Box>, kept: seq<nat>): (r: seq<Box>)
    requires forall k :: 0 <= k < |kept| ==> kept[k] < |s|
    ensures |r| == |kept| && forall k :: 0 <= k < |kept| ==> r[k] == s[kept[k]]
  {
    seq(|kept|, k requires 0 <= k < |kept| => s[kept[k]])
  }

  /** The inner loop: marks what candidate i suppresses among the later ones. */
  method MarkFrom(cand: array<Box>, n: nat, i: nat, suppressed: array<bool>, nms: real, ghost kept: seq<nat>)
    requires i < n <= cand.Length && n <= suppressed.Length
    requires forall k :: 0 <= k < |kept| ==> kept[k] < i
    requires forall j :: i <= j < n ==> (suppressed[j] <==> Hit(cand[..n], kept, j, nms))
    modifies suppressed
    ensures forall j :: i < j < n ==> (suppressed[j] <==> Hit(cand[..n], kept + [i], j, nms))
  {
    hide Suppresses;
    ghost var s, kept' := cand[..n], kept + [i];
    for j := i + 1 to n
      invariant forall k :: i < k < j ==> (suppressed[k] <==> Hit(s, kept', k, nms))
      invariant forall k :: j <= k < n ==> (suppressed[k] <==> Hit(s, kept, k, nms))
    {
      HitAppend(s, kept, i, j, nms);
      if !suppressed[j] {
        var hit := Overlaps(cand[i], cand[j], nms);
        if hit {
          suppressed[j] := true;
        }
      }
    }
  }

  lemma HitAppend(s: seq<Box>, kept: seq<nat>, i: nat, j: nat, nms: real)
    requires i < j < |s|
    ensures Hit(s, kept + [i], j, nms) <==> Hit(s, kept, j, nms) || Suppresses(s[i], s[j], nms)
  {
    hide Suppresses;
    var kept' := kept + [i];
    if Hit(s, kept, j, nms) {
      var k :| 0 <= k < |kept| && kept[k] < j && Suppresses(s[kept[k]], s[j], nms);
      assert kept'[k] == kept[k];
    }
    if Suppresses(s[i], s[j], nms) {
      assert kept'[|kept|] == i;
    }
  }

  /** The pairwise test, with its early exits. */
  method Overlaps(a: Box, b: Box, nms: real) returns (hit: bool)
    ensures hit == Suppresses(a, b, nms)
  {
    if a.cls != b.cls {
      return false;
    }
    hide Max, Min, Area;
    var ix1, iy1 := Max(a.x1, b.x1), Max(a.y1, b.y1);
    var ix2, iy2 := Min(a.x2, b.x2), Min(a.y2, b.y2);
    if ix2 <= ix1 || iy2 <= iy1 {
      return false;
    }
    var inter := (ix2 - ix1) * (iy2 - iy1);
    assert inter == Overlap(a, b);
    hide Overlap;
    var union := Area(a) + Area(b) - inter;
    if union <= 0.0 {
      return false;
    }
    return inter / union > nms;
  }

  /** Goes through the sorted candidates, keeping each that no kept one suppresses. */
  method Select(cand: array<Box>, n: nat, most: nat, nms: real) returns (dets: seq<Box>)
    requires n <= cand.Length && n <= MAX_DETS
    ensures dets == Pick(cand[..n], Greedy(cand[..n], n, most, nms))
  {
    ghost var s := cand[..n];
    var suppressed := new bool[MAX_DETS](_ => false);
    dets := [];
    ghost var kept: seq<nat> := [];
    assert forall j :: 0 <= j < n ==> !Hit(s, kept, j, nms);
    assert kept == Greedy(s, 0, most, nms);
    hide Suppresses, Greedy, Hit, Pick;
    var i: nat := 0;
    while i < n && |dets| < most
      invariant i <= n && cand[..n] == s && kept == Greedy(s, i, most, nms) && dets == Pick(s, kept)
      invariant forall j :: i <= j < n ==> (suppressed[j] <==> Hit(s, kept, j, nms))
    {
      GreedyNext(s, i, most, nms);
      if !suppressed[i] {
        MarkFrom(cand, n, i, suppressed, nms, kept);
        PickAppend(s, kept, i);
        assert cand[i] == cand[..n][i];
        dets := dets + [cand[i]];
        kept := kept + [i];
      }
      i := i + 1;
    }
    GreedyFull(s, i, n, most, nms);
  }

  /** Sorts the first n candidates in place and returns the survivors, best first. */
  method Finish(cand: array<Box>, n: nat, most: nat, nms: real) returns (dets: seq<Box>)
    requires n <= cand.Length && n <= MAX_DETS
    modifies cand
    ensures dets == Survivors(old(cand[..n]), most, nms)
  {
    SortInPlace(cand, n);
    hide Sorted, Greedy, Pick;
    dets := Select(cand, n, most, nms);
  }

  lemma PickAppend(s: seq<Box>, kept: seq<nat>, i: nat)
    requires i < |s| && forall k :: 0 <= k < |kept| ==> kept[k] < |s|
    ensures Pick(s, kept + [i]) == Pick(s, kept) + [s[i]]
  {
  }

  lemma GreedyNext(s: seq<Box>, i: nat, most: nat, nms: real)
    requires i < |s|
    ensures var before := Greedy(s, i, most, nms);
            Greedy(s, i + 1, most, nms)
            == if |before| >= most || Hit(s, before, i, nms) then before else before + [i]
  {
    hide Hit;
  }

  lemma {:induction false} GreedyFull(s: seq<Box>, i: nat, n: nat, most: nat, nms: real)
    requires i <= n <= |s| && (i == n || |Greedy(s, i, most, nms)| >= most)
    ensures Greedy(s, n, most, nms) == Greedy(s, i, most, nms)
    decreases n
  {
    if i < n {
      GreedyFull(s, i, n - 1, most, nms);
    }
  }

  // ---------------------------------------------------------------- detections

  /** The detections made of a list of candidates. */
  ghost function Survivors(cs: seq<Box>, most: nat, nms: real): seq<Box> {
    var s := Sorted(cs);
    Pick(s, Greedy(s, |s|, most, nms))
  }

  /** Overlapping beyond the threshold is mutual. */
  lemma SuppressesMutually(a: Box, b: Box, nms: real)
    ensures Suppresses(a, b, nms) == Suppresses(b, a, nms)
  {
    assert Overlap(a, b) == Overlap(b, a);
    hide Area, Overlap;
  }

  /**
   * The detections are candidates in descending score, no two of one class overlapping beyond the
   * threshold; and unless the limit cut them off, every other candidate overlaps a detection of its
   * class with at least its score.
   */
  lemma SurvivorsMeaning(cs: seq<Box>, most: nat, nms: real)
    ensures var r := Survivors(cs, most, nms);
            && |r| <= most && Descending(r) && (forall x :: x in r ==> x in cs)
            && (forall i, j :: 0 <= i < |r| && 0 <= j < |r| && i != j ==> !Suppresses(r[i], r[j], nms))
            && (|cs| <= most || |r| < most ==>
                  forall x :: x in cs ==> x in r || exists y :: y in r && y.score >= x.score && Suppresses(y, x, nms))
  {
    var s := Sorted(cs);
    var r := Survivors(cs, most, nms);
    SortedSame(cs);
    PickedInOrder(s, most, nms);
    hide Sorted, Greedy, Suppresses, Insert, Pick;
    if |cs| <= most || |r| < most {
      forall x | x in cs && x !in r ensures exists y :: y in r && y.score >= x.score && Suppresses(y, x, nms) {
        Covered(s, most, nms, x);
      }
    }
  }

  lemma SortedSame(cs: seq<Box>)
    ensures Descending(Sorted(cs)) && forall x :: x in Sorted(cs) <==> x in cs
  {
    SortedIsStablePermutation(cs);
    hide Sorted, Descending;
    assert forall x :: x in Sorted(cs) <==> x in multiset(Sorted(cs));
    assert forall x :: x in cs <==> x in multiset(cs);
  }

  lemma PickedInOrder(s: seq<Box>, most: nat, nms: real)
    requires Descending(s)
    ensures var r := Pick(s, Greedy(s, |s|, most, nms));
            && Descending(r) && (forall x :: x in r ==> x in s)
            && forall i, j :: 0 <= i < |r| && 0 <= j < |r| && i != j ==> !Suppresses(r[i], r[j], nms)
  {
    KeptApart(s, |s|, most, nms);
    var r := Pick(s, Greedy(s, |s|, most, nms));
    hide Greedy, Suppresses;
    forall i, j | 0 <= i < |r| && 0 <= j < |r| && i != j ensures !Suppresses(r[i], r[j], nms) {
      SuppressesMutually(r[i], r[j], nms);
    }
  }

  lemma Covered(s: seq<Box>, most: nat, nms: real, x: Box)
    requires Descending(s) && x in s && (|s| <= most || |Greedy(s, |s|, most, nms)| < most)
    requires x !in Pick(s, Greedy(s, |s|, most, nms))
    ensures exists y :: y in Pick(s, Greedy(s, |s|, most, nms)) && y.score >= x.score && Suppresses(y, x, nms)
  {
    hide Greedy, Suppresses;
    var kept := Greedy(s, |s|, most, nms);
    var r := Pick(s, kept);
    var j :| 0 <= j < |s| && s[j] == x;
    forall k | 0 <= k < |kept| ensures kept[k] != j {
      assert r[k] in r;
    }
    if |s| <= most {
      DroppedCoveredWithRoom(s, most, nms, j);
    } else {
      DroppedCovered(s, |s|, most, nms, j);
    }
    var i :| i in kept && i < j && s[i].score >= s[j].score && Suppresses(s[i], s[j], nms);
    var k :| 0 <= k < |kept| && kept[k] == i;
    assert r[k] in r;
  }

  // ---------------------------------------------------------------- what suppression means

  /** The point lies in the box, its border included. */
  predicate In(b: Box, x: real, y: real) { b.x1 <= x <= b.x2 && b.y1 <= y <= b.y2 }

  /** The box has an inside. */
  predicate Proper(b: Box) { b.x1 < b.x2 && b.y1 < b.y2 }

  /** m covers exactly the points the two boxes share. */
  ghost predicate Shared(a: Box, b: Box, m: Box) {
    forall x: real, y: real :: In(m, x, y) <==> In(a, x, y) && In(b, x, y)
  }

  function Middle(a: Box, b: Box): Box {
    Box(Max(a.x1, b.x1), Max(a.y1, b.y1), Min(a.x2, b.x2), Min(a.y2, b.y2), 0.0, 0)
  }

  lemma MiddleShared(a: Box, b: Box)
    ensures Shared(a, b, Middle(a, b)) && Overlap(a, b) == Area(Middle(a, b))
  {
  }

  /** Boxes with an inside that cover the same points have the same corners. */
  lemma SameCorners(m: Box, k: Box)
    requires Proper(m) && forall x: real, y: real :: In(m, x, y) <==> In(k, x, y)
    ensures m.x1 == k.x1 && m.y1 == k.y1 && m.x2 == k.x2 && m.y2 == k.y2
  {
    assert In(m, m.x1, m.y1) && In(m, m.x2, m.y2);
    assert In(k, m.x1, m.y1) && In(k, m.x2, m.y2);
    assert In(k, k.x1, k.y1) && In(k, k.x2, k.y2);
    assert In(m, k.x1, k.y1) && In(m, k.x2, k.y2);
  }

  lemma Smaller(p: real, q: real, r: real, s: real)
    requires 0.0 <= p <= q && 0.0 <= r <= s
    ensures p * r <= q * s
  {
    assert p * r <= q * r;
    assert q * r <= q * s;
  }

  lemma UnionPositive(a: Box, b: Box, m: Box)
    requires Proper(a) && Proper(b) && Proper(m) && a.x1 <= m.x1 && m.x2 <= a.x2 && a.y1 <= m.y1 && m.y2 <= a.y2
    ensures Area(a) + Area(b) - Area(m) > 0.0
  {
    assert Area(b) > 0.0;
    Smaller(m.x2 - m.x1, a.x2 - a.x1, m.y2 - m.y1, a.y2 - a.y1);
  }

  lemma RatioAbove(inter: real, union: real, nms: real)
    requires union > 0.0
    ensures inter / union > nms <==> inter > nms * union
  {
    var q := inter / union;
    assert q * union == inter;
    assert (q - nms) * union == inter - nms * union;
    assert q > nms ==> (q - nms) * union > 0.0;
    assert q <= nms ==> (q - nms) * union <= 0.0;
  }

  lemma SuppressesFlat(a: Box, b: Box, nms: real)
    ensures var k := Middle(a, b);
            && (Proper(k) ==> Proper(a) && Proper(b))
            && (Suppresses(a, b, nms) <==>
                  a.cls == b.cls && Proper(k) && Area(k) > nms * (Area(a) + Area(b) - Area(k)))
  {
    var k := Middle(a, b);
    assert Overlap(a, b) == Area(k);
    if Proper(k) {
      UnionPositive(a, b, k);
      RatioAbove(Area(k), Area(a) + Area(b) - Area(k), nms);
    }
    hide Area, Overlap;
  }

  /**
   * One box suppresses another exactly if both have an inside, are of one class, and the part they
   * share has an inside and is more than the given fraction of the area they cover together.
   */
  lemma SuppressesIff(a: Box, b: Box, nms: real)
    ensures Suppresses(a, b, nms) <==>
              && Proper(a) && Proper(b) && a.cls == b.cls
              && exists m :: Shared(a, b, m) && Proper(m) && Area(m) > nms * (Area(a) + Area(b) - Area(m))
  {
    var k := Middle(a, b);
    MiddleShared(a, b);
    SuppressesFlat(a, b, nms);
    forall m | Shared(a, b, m) && Proper(m) ensures Proper(k) && Area(m) == Area(k) {
      SharedSame(a, b, m, k);
    }
    hide Suppresses, Overlap, Middle, Area, Shared, Proper;
  }

  lemma SharedSame(a: Box, b: Box, m: Box, k: Box)
    requires Shared(a, b, m) && Shared(a, b, k) && Proper(m)
    ensures Proper(k) && Area(m) == Area(k)
  {
    SameCorners(m, k);
  }

  /** Every detection is the box of some anchor, placed in the picture. */
  lemma DetectionsComeFromAnchors(t: Tensor, g: Setup, most: nat, nms: real, x: Box)
    requires t.Valid() && x in Survivors(Candidates(t, g, t.anchors), most, nms)
    ensures exists a :: 0 <= a < t.anchors && ComesFrom(t, g, a, x)
  {
    hide Survivors, ComesFrom;
    SurvivorsMeaning(Candidates(t, g, t.anchors), most, nms);
    hide Candidates;
    var from := CandidatesMeaning(t, g, t.anchors);
    var k :| 0 <= k < |from| && Candidates(t, g, t.anchors)[k] == x;
    assert ComesFrom(t, g, from[k], x);
  }

  /** The three scans lead to the same detections. */
  lemma SameDetections(t: Tensor, u: Tensor, g: Setup, stale: seq<int>, most: nat, nms: real)
    requires Transposed(t, u) && |stale| >= t.anchors && g.conf > -1.0
    ensures Survivors(FastCandidates(t, g, stale, t.anchors), most, nms)
         == Survivors(Candidates(t, g, t.anchors), most, nms)
         == Survivors(Candidates(u, g, u.anchors), most, nms)
  {
    hide Survivors;
    FastScanAgrees(t, g, stale);
    LayoutIndependent(t, u, g);
  }

  /** The whole post-processing: the scan that suits the layout and size, then sorting and suppression. */
  method Postprocess(t: Tensor, g: Setup, best: array<real>, bestc: array<int>, most: nat, nms: real)
    returns (dets: seq<Box>)
    requires t.Valid() && best.Length == bestc.Length == MAX_ANCHORS
    modifies best, bestc
    ensures dets == Survivors(if t.channelsFirst && t.anchors <= MAX_ANCHORS
                              then FastCandidates(t, g, old(bestc[..]), t.anchors)
                              else Candidates(t, g, t.anchors), most, nms)
    ensures g.conf > -1.0 ==> dets == Survivors(Candidates(t, g, t.anchors), most, nms)
  {
    hide Survivors, Candidate, Tensor.At;
    ghost var stale := bestc[..];
    var cs: seq<Box>;
    if t.channelsFirst && t.anchors <= MAX_ANCHORS {
      cs := ScanClasses(t, g, best, bestc);
      if g.conf > -1.0 {
        FastScanAgrees(t, g, stale);
      }
    } else {
      cs := ScanAnchors(t, g);
    }
    var cand := new Box[|cs|](i requires 0 <= i < |cs| => cs[i]);
    assert cand[..|cs|] == cs;
    dets := Finish(cand, |cs|, most, nms);
  }
}
