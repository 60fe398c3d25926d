/**
 * H.264 byte streams: NAL units separated by start codes, the length-prefixed form stored in
 * MP4 samples, and the conversions between them (Annex B of ITU-T H.264).
 */
module AnnexB {
  import opened Common
  import opened Bytes

  type Nal = seq<Byte>

  // ---------------------------------------------------------------- scanning

  /** Length of the start code at offset i: 3 or 4, and 0 if there is none. */
  function CodeLen(d: seq<Byte>, i: nat): (n: nat)
    ensures n == 0 || n == 3 || n == 4
    ensures i + n <= |d| || n == 0
  {
    if i + 3 <= |d| && d[i] == 0 && d[i + 1] == 0 && d[i + 2] == 1 then 3
    else if i + 4 <= |d| && d[i] == 0 && d[i + 1] == 0 && d[i + 2] == 0 && d[i + 3] == 1 then 4
    else 0
  }

  /** Offset of the first start code at or after `from`. */
  function Find(d: seq<Byte>, from: nat): (sc: Option<nat>)
    ensures sc.Some? ==> from <= sc.value && CodeLen(d, sc.value) > 0
    decreases |d| - from
  {
    if from + 3 > |d| then None
    else if CodeLen(d, from) > 0 then Some(from)
    else Find(d, from + 1)
  }

  /** The scan misses nothing: no start code begins before the one found. */
  lemma {:induction false} FindIsFirst(d: seq<Byte>, from: nat, i: nat)
    requires from <= i && (Find(d, from).Some? ==> i < Find(d, from).value)
    ensures CodeLen(d, i) == 0
    decreases |d| - from
  {
    if from < i && from + 3 <= |d| {
      FindIsFirst(d, from + 1, i);
    }
  }

  method NalFind(d: seq<Byte>, from: nat) returns (sc: Option<nat>, pos: nat)
    ensures sc == Find(d, from)
    ensures sc.Some? ==> pos == sc.value + CodeLen(d, sc.value)
  {
    var i := from;
    while i + 3 <= |d|
      invariant from <= i
      invariant Find(d, from) == Find(d, i)
    {
      if d[i] == 0 && d[i + 1] == 0 && d[i + 2] == 1 {
        return Some(i), i + 3;
      }
      if d[i] == 0 && d[i + 1] == 0 && d[i + 2] == 0 && i + 3 < |d| && d[i + 3] == 1 {
        return Some(i), i + 4;
      }
      i := i + 1;
    }
    return None, 0;
  }

  /** The unit that starts at offset pos and ends before the next start code. */
  function UnitAt(d: seq<Byte>, pos: nat): Nal
    requires pos <= |d|
  {
    var next := Find(d, pos);
    if next.None? then d[pos..] else d[pos..next.value]
  }

  /** The units reported by a walk that starts looking at offset `from`. */
  function Walk(d: seq<Byte>, from: nat): seq<Nal>
    decreases |d| - from
  {
    var sc := Find(d, from);
    if sc.None? then []
    else
      var pos := sc.value + CodeLen(d, sc.value);
      if Find(d, pos).None? then [UnitAt(d, pos)] else [UnitAt(d, pos)] + Walk(d, pos)
  }

  /** One turn of the walk: the unit behind the next start code, and then the rest. */
  lemma WalkNext(d: seq<Byte>, from: nat, pos: nat, u: Nal)
    requires Find(d, from).Some? && pos == Find(d, from).value + CodeLen(d, Find(d, from).value)
    requires pos <= |d| && u == UnitAt(d, pos)
    ensures Walk(d, from) == [u] + Walk(d, pos)
  {
    hide Find, CodeLen, UnitAt;
  }

  lemma WalkEnd(d: seq<Byte>, from: nat)
    requires Find(d, from).None?
    ensures Walk(d, from) == []
  {
    hide Find;
  }

  // ---------------------------------------------------------------- streams

  function StartCode(n: nat): (s: seq<Byte>)
    ensures |s| == if n == 4 then 4 else 3
  {
    if n == 4 then [0, 0, 0, 1] else [0, 0, 1]
  }

  /** The units, each preceded by a start code of the given length. */
  function Join(codes: seq<nat>, nals: seq<Nal>): seq<Byte>
    requires |codes| == |nals|
  {
    if nals == [] then [] else StartCode(codes[0]) + (nals[0] + Join(codes[1..], nals[1..]))
  }

  /** What the encoder guarantees of a unit (section 7.4.1): no emulated start code, no zero at its end. */
  ghost predicate Clean(n: Nal) {
    && n != [] && n[|n| - 1] != 0
    && forall i :: 0 <= i && i + 3 <= |n| ==> !(n[i] == 0 && n[i + 1] == 0 && n[i + 2] <= 1)
  }

  ghost predicate AllClean(nals: seq<Nal>) {
    forall i :: 0 <= i < |nals| ==> Clean(nals[i])
  }

  /** No scan finds a start code inside a clean unit, whatever follows it. */
  lemma NoCodeInside(d: seq<Byte>, at: nat, n: Nal, i: nat)
    requires Lies(d, at, n) && Clean(n) && at <= i < at + |n|
    ensures CodeLen(d, i) == 0
  {
    var k := i - at;
    assert d[i] == n[k];
    if k + 1 < |n| { assert d[i + 1] == n[k + 1]; }
    if k + 2 < |n| { assert d[i + 2] == n[k + 2]; }
  }

  lemma {:induction false} FindSkips(d: seq<Byte>, from: nat, to: nat)
    requires from <= to <= |d|
    requires forall i :: from <= i < to ==> CodeLen(d, i) == 0
    ensures Find(d, from) == Find(d, to)
    decreases |d| - from
  {
    if from < to {
      FindSkips(d, from + 1, to);
    }
  }

  lemma {:induction false} FindAgain(d: seq<Byte>, from: nat)
    requires Find(d, from).Some?
    ensures Find(d, Find(d, from).value) == Find(d, from)
    decreases |d| - from
  {
    if CodeLen(d, from) == 0 {
      FindAgain(d, from + 1);
    }
  }

  /** Looking for the next start code from the beginning of a clean unit finds the one after it. */
  lemma FindAfter(d: seq<Byte>, at: nat, n: Nal)
    requires Lies(d, at, n) && (n == [] || Clean(n))
    requires at + |n| == |d| || CodeLen(d, at + |n|) > 0
    ensures Find(d, at) == if at + |n| == |d| then None else Some(at + |n|)
  {
    forall i | at <= i < at + |n| ensures CodeLen(d, i) == 0 {
      NoCodeInside(d, at, n, i);
    }
    FindSkips(d, at, at + |n|);
  }

  ghost predicate CodesOk(codes: seq<nat>) {
    forall i :: 0 <= i < |codes| ==> codes[i] == 3 || codes[i] == 4
  }

  lemma CodeAt(d: seq<Byte>, at: nat, c: nat)
    requires (c == 3 || c == 4) && at + c <= |d| && d[at..at + c] == StartCode(c)
    ensures CodeLen(d, at) == c
  {
    var w := d[at..at + c];
    assert w[0] == d[at] && w[1] == d[at + 1] && w[2] == d[at + 2];
    if c == 4 { assert w[3] == d[at + 3]; }
  }

  /** What lies where a joined stream begins. */
  lemma JoinParts(d: seq<Byte>, at: nat, codes: seq<nat>, nals: seq<Nal>)
    requires at <= |d| && |codes| == |nals| && CodesOk(codes) && nals != []
    requires d[at..] == Join(codes, nals)
    ensures CodeLen(d, at) == codes[0] && Lies(d, at + codes[0], nals[0])
    ensures d[at + codes[0] + |nals[0]|..] == Join(codes[1..], nals[1..])
  {
    hide CodeLen, StartCode;
    var c, n, tail := codes[0], nals[0], Join(codes[1..], nals[1..]);
    SplitAt(d, at, StartCode(c), n + tail);
    CodeAt(d, at, c);
    SplitAt(d, at + c, n, tail);
  }

  lemma JoinEmpty(d: seq<Byte>, at: nat, codes: seq<nat>, nals: seq<Nal>)
    requires at <= |d| && |codes| == |nals| && CodesOk(codes) && d[at..] == Join(codes, nals)
    ensures at == |d| <==> nals == []
  {
    if nals != [] {
      JoinParts(d, at, codes, nals);
    }
  }

  lemma WalkStep(d: seq<Byte>, from: nat)
    requires from <= |d| && CodeLen(d, from) > 0
    ensures Find(d, from) == Some(from)
    ensures var pos := from + CodeLen(d, from);
            Walk(d, from) == [UnitAt(d, pos)] + if Find(d, pos).None? then [] else Walk(d, Find(d, pos).value)
  {
    hide CodeLen;
    var pos := from + CodeLen(d, from);
    var next := Find(d, pos);
    if next.Some? {
      FindAgain(d, pos);
      assert Walk(d, pos) == Walk(d, next.value);
    }
  }

  /** At a start code, with unit n behind it, the walk reports n and goes on after it. */
  lemma WalkFirst(d: seq<Byte>, at: nat, pos: nat, n: Nal)
    requires at <= |d| && CodeLen(d, at) > 0 && pos == at + CodeLen(d, at)
    requires Lies(d, pos, n) && Clean(n)
    requires pos + |n| == |d| || CodeLen(d, pos + |n|) > 0
    ensures Walk(d, at) == [n] + if pos + |n| == |d| then [] else Walk(d, pos + |n|)
  {
    hide CodeLen, StartCode, Clean;
    WalkStep(d, at);
    FindAfter(d, pos, n);
    if pos + |n| == |d| {
      assert d[pos..] == d[pos..pos + |n|];
    }
  }

  lemma {:induction false} WalkJoinFrom(d: seq<Byte>, at: nat, codes: seq<nat>, nals: seq<Nal>)
    requires |codes| == |nals| && CodesOk(codes) && AllClean(nals) && nals != []
    requires at <= |d| && d[at..] == Join(codes, nals)
    ensures Walk(d, at) == nals && CodeLen(d, at) > 0
    decreases |nals|
  {
    hide CodeLen, Find, Walk, Join;
    JoinParts(d, at, codes, nals);
    var pos, n, rest := at + codes[0], nals[0], nals[1..];
    assert Clean(n);
    assert nals == [n] + rest;
    JoinEmpty(d, pos + |n|, codes[1..], rest);
    if rest != [] {
      WalkJoinFrom(d, pos + |n|, codes[1..], rest);
    }
    WalkFirst(d, at, pos, n);
  }

  /** Walking a well-formed byte stream reports exactly the units it was built from. */
  lemma WalkJoin(codes: seq<nat>, nals: seq<Nal>)
    requires |codes| == |nals| && CodesOk(codes) && AllClean(nals)
    ensures Walk(Join(codes, nals), 0) == nals
  {
    if nals != [] {
      WalkJoinFrom(Join(codes, nals), 0, codes, nals);
    }
  }

  /** Conversely, any stream that begins with a start code is tiled by the units its walk reports. */
  lemma {:induction false} WalkTiles(d: seq<Byte>, from: nat) returns (codes: seq<nat>)
    requires from <= |d| && CodeLen(d, from) > 0
    ensures |codes| == |Walk(d, from)| && CodesOk(codes)
    ensures d[from..] == Join(codes, Walk(d, from))
    decreases |d| - from
  {
    hide Find, Walk;
    WalkStep(d, from);
    var c := CodeLen(d, from);
    var pos := from + c;
    var u := UnitAt(d, pos);
    assert d[from..pos] == StartCode(c);
    assert d[from..] == d[from..pos] + d[pos..];
    var next := Find(d, pos);
    if next.None? {
      codes := [c];
      assert [u] + [] == [u];
    } else {
      var rest := WalkTiles(d, next.value);
      codes := [c] + rest;
      assert d[pos..] == u + d[next.value..];
    }
  }

  // ---------------------------------------------------------------- length-prefixed form

  predicate IsVcl(n: Nal) {
    n != [] && (n[0] % 32 == 1 || n[0] % 32 == 5)
  }

  /** The picture data units: what a sample of the live stream contains. */
  function Vcl(nals: seq<Nal>): (v: seq<Nal>)
    ensures forall i :: 0 <= i < |v| ==> IsVcl(v[i]) && v[i] in nals
  {
    if nals == [] then []
    else if IsVcl(nals[0]) then [nals[0]] + Vcl(nals[1..])
    else Vcl(nals[1..])
  }

  /** These are exactly the slices of types 1 and 5 (table 7-1 of ITU-T H.264), all of them. */
  lemma {:induction false} VclMeaning(nals: seq<Nal>, n: Nal)
    ensures n in Vcl(nals) <==> n in nals && n != [] && (n[0] % 32 == 1 || n[0] % 32 == 5)
  {
    if nals != [] {
      VclMeaning(nals[1..], n);
      assert nals == [nals[0]] + nals[1..];
    }
  }

  /** Every unit with its length in front. */
  function Prefixed(nals: seq<Nal>): seq<Byte> {
    if nals == [] then [] else Be32(|nals[0]|) + (nals[0] + Prefixed(nals[1..]))
  }

  /** The units read back from the length-prefixed form, up to the first one that does not fit. */
  function Units(d: seq<Byte>, i: nat): seq<Nal>
    decreases |d| - i
  {
    if i + 4 > |d| then []
    else
      var len := ReadBe32(d, i);
      if len == 0 || i + 4 + len > |d| then [] else [d[i + 4..i + 4 + len]] + Units(d, i + 4 + len)
  }

  lemma UnitsStep(d: seq<Byte>, at: nat, n: Nal)
    requires 0 < |n| < TWO32 && Lies(d, at, Be32(|n|)) && Lies(d, at + 4, n)
    ensures Units(d, at) == [n] + Units(d, at + 4 + |n|)
  {
    hide Be32;
    assert ReadBe32(d, at) == |n| by {
      ReadBe32Slice(d, at, |n|);
    }
    hide ReadBe32;
    var i := at + 4;
    assert d[i..i + |n|] == n;
  }

  lemma PrefixedParts(d: seq<Byte>, at: nat, nals: seq<Nal>)
    requires at <= |d| && d[at..] == Prefixed(nals) && nals != []
    ensures Lies(d, at, Be32(|nals[0]|)) && Lies(d, at + 4, nals[0])
    ensures d[at + 4 + |nals[0]|..] == Prefixed(nals[1..])
  {
    hide Be32;
    var n := nals[0];
    SplitAt(d, at, Be32(|n|), n + Prefixed(nals[1..]));
    SplitAt(d, at + 4, n, Prefixed(nals[1..]));
  }

  /** Removing the length prefixes gives back the units. */
  lemma {:induction false} UnitsPrefixed(d: seq<Byte>, at: nat, nals: seq<Nal>)
    requires at <= |d| && d[at..] == Prefixed(nals)
    requires forall i :: 0 <= i < |nals| ==> 0 < |nals[i]| < TWO32
    ensures Units(d, at) == nals
    decreases |nals|
  {
    hide Be32, Units, Prefixed;
    if nals == [] {
      UnitsEnd(d, at);
    } else {
      PrefixedParts(d, at, nals);
      UnitsStep(d, at, nals[0]);
      UnitsPrefixed(d, at + 4 + |nals[0]|, nals[1..]);
      assert [nals[0]] + nals[1..] == nals;
    }
  }

  lemma UnitsEnd(d: seq<Byte>, at: nat)
    requires at <= |d| && d[at..] == Prefixed([])
    ensures Units(d, at) == []
  {
    assert |d[at..]| == 0;
  }
}
