/** Small shared vocabulary: optional pointers, and how often a sequence of them holds a value. */
module Common {

  datatype Option<+T> = None | Some(value: T)

  /** 1 if the pointer is v, 0 otherwise. */
  function Is<T(==)>(o: Option<T>, v: T): nat {
    if o == Some(v) then 1 else 0
  }

  /** How many of the pointers in `xs` are v. */
  function Count<T(==)>(xs: seq<Option<T>>, v: T): nat {
    if xs == [] then 0 else Count(xs[..|xs| - 1], v) + Is(xs[|xs| - 1], v)
  }

  /** Replacing one pointer changes the count by that exchange and nothing else. */
  lemma {:induction false} CountUpdate<T>(xs: seq<Option<T>>, i: nat, x: Option<T>, v: T)
    requires i < |xs|
    ensures Count(xs[i := x], v) + Is(xs[i], v) == Count(xs, v) + Is(x, v)
  {
    var n := |xs| - 1;
    var ys := xs[i := x];
    if i == n {
      assert ys[..n] == xs[..n];
    } else {
      CountUpdate(xs[..n], i, x, v);
      assert ys[..n] == xs[..n][i := x];
    }
  }

  lemma {:induction false} CountCovers<T>(xs: seq<Option<T>>, i: nat, v: T)
    requires i < |xs| && xs[i] == Some(v)
    ensures Count(xs, v) >= 1
  {
    var n := |xs| - 1;
    if i < n {
      CountCovers(xs[..n], i, v);
    }
  }

  /** Two positions holding v are counted twice. */
  lemma {:induction false} CountCoversTwo<T>(xs: seq<Option<T>>, i: nat, j: nat, v: T)
    requires i < j < |xs| && xs[i] == xs[j] == Some(v)
    ensures Count(xs, v) >= 2
  {
    var n := |xs| - 1;
    if j == n {
      CountCovers(xs[..n], i, v);
    } else {
      CountCoversTwo(xs[..n], i, j, v);
    }
  }

  /** Anything counted is held at some position. */
  lemma {:induction false} CountWitness<T>(xs: seq<Option<T>>, v: T) returns (i: nat)
    requires Count(xs, v) > 0
    ensures i < |xs| && xs[i] == Some(v)
  {
    var n := |xs| - 1;
    if xs[n] == Some(v) {
      i := n;
    } else {
      i := CountWitness(xs[..n], v);
    }
  }

  lemma {:induction false} CountNone<T>(xs: seq<Option<T>>, v: T)
    requires forall i :: 0 <= i < |xs| ==> xs[i] != Some(v)
    ensures Count(xs, v) == 0
  {
    if xs != [] {
      CountNone(xs[..|xs| - 1], v);
    }
  }

  // ---------------------------------------------------------------- circular arrays

  /** Position i of a circular array of n entries, for an index at most one round too large. */
  function Wrap(i: nat, n: nat): (j: nat)
    requires i < 2 * n
    ensures j < n
  {
    if i < n then i else i - n
  }

  lemma WrapIsMod(i: nat, n: nat)
    requires i < 2 * n
    ensures i % n == Wrap(i, n)
  {
    DivModUnique(i, n, if i < n then 0 else 1, Wrap(i, n));
  }

  /** Euclidean quotient and remainder are the only ones. */
  lemma DivModUnique(i: int, n: int, q: int, m: int)
    requires n > 0 && i == q * n + m && 0 <= m < n
    ensures i / n == q && i % n == m
  {
    var d := i / n - q;
    assert d * n == m - i % n by {
      assert i == (i / n) * n + i % n;
      assert d * n == (i / n) * n - q * n;
    }
    assert d >= 1 ==> d * n >= n;
    assert d <= -1 ==> d * n <= -n;
  }

  /** The entries of a circular array from `head` on, oldest first. */
  function Window<T>(xs: seq<T>, head: nat, count: nat): (w: seq<T>)
    requires count <= |xs| && (head < |xs| || count == 0)
    ensures |w| == count
    ensures forall k :: 0 <= k < count ==> w[k] == xs[Wrap(head + k, |xs|)]
  {
    seq(count, k requires 0 <= k < count && count <= |xs| && head < |xs| => xs[Wrap(head + k, |xs|)])
  }

  /** Writing at the tail appends. */
  lemma WindowPush<T>(xs: seq<T>, head: nat, count: nat, x: T)
    requires count < |xs| && head < |xs|
    ensures Window(xs[Wrap(head + count, |xs|) := x], head, count + 1) == Window(xs, head, count) + [x]
  {
  }

  /** Advancing the head removes the oldest entry. */
  lemma WindowPop<T>(xs: seq<T>, head: nat, count: nat)
    requires 0 < count <= |xs| && head < |xs|
    ensures Window(xs, head, count) == [xs[head]] + Window(xs, Wrap(head + 1, |xs|), count - 1)
  {
  }
}
