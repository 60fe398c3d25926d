/** Bytes and big-endian integers. */
module Bytes {
  type Byte = b: int | 0 <= b < 256

  const TWO16: nat := 0x1_0000
  const TWO32: nat := 0x1_0000_0000

  /** The low 16 bits, most significant byte first. */
  function Be16(v: nat): (s: seq<Byte>)
    ensures |s| == 2
  {
    [v / 256 % 256, v % 256]
  }

  /** The low 32 bits, most significant byte first. */
  function Be32(v: nat): (s: seq<Byte>)
    ensures |s| == 4
  {
    [v / 256 / 256 / 256 % 256, v / 256 / 256 % 256, v / 256 % 256, v % 256]
  }

  function Value32(a: Byte, b: Byte, c: Byte, d: Byte): (v: nat)
    ensures v < TWO32
  {
    ((a * 256 + b) * 256 + c) * 256 + d
  }

  function ReadBe32(s: seq<Byte>, at: nat): (v: nat)
    requires at + 4 <= |s|
    ensures v < TWO32
  {
    Value32(s[at], s[at + 1], s[at + 2], s[at + 3])
  }

  /** Writing then reading keeps the low 32 bits. */
  lemma Be32Value(v: nat)
    ensures var s := Be32(v); Value32(s[0], s[1], s[2], s[3]) == v % TWO32
  {
    var v1 := v / 256;
    var v2 := v1 / 256;
    var v3 := v2 / 256;
    var v4 := v3 / 256;
    assert v == v4 * TWO32 + Value32(v3 % 256, v2 % 256, v1 % 256, v % 256);
  }

  /** Reads the 32-bit value found `at` bytes into s, given what lies there. */
  lemma ReadBe32Slice(s: seq<Byte>, at: nat, v: nat)
    requires at + 4 <= |s| && s[at..at + 4] == Be32(v)
    ensures ReadBe32(s, at) == v % TWO32
  {
    var w := s[at..at + 4];
    assert w[0] == s[at] && w[1] == s[at + 1] && w[2] == s[at + 2] && w[3] == s[at + 3];
    Be32Value(v);
  }

  /** s lies at offset `at` of d. */
  ghost predicate Lies<T>(d: seq<T>, at: nat, s: seq<T>) {
    at + |s| <= |d| && d[at..at + |s|] == s
  }

  lemma LiesSplit<T>(d: seq<T>, at: nat, a: seq<T>, b: seq<T>)
    requires Lies(d, at, a + b)
    ensures Lies(d, at, a) && Lies(d, at + |a|, b)
  {
    var w := d[at..at + |a + b|];
    assert d[at..at + |a|] == w[..|a|];
    assert d[at + |a|..at + |a| + |b|] == w[|a|..];
  }

  /** What lies at offset `at` of a sequence whose rest is a + b. */
  lemma SplitAt<T>(d: seq<T>, at: nat, a: seq<T>, b: seq<T>)
    requires at <= |d| && d[at..] == a + b
    ensures at + |a| <= |d| && d[at..at + |a|] == a && d[at + |a|..] == b
  {
    var rest := d[at..];
    assert |rest| == |a| + |b|;
    assert d[at..at + |a|] == rest[..|a|];
    assert d[at + |a|..] == rest[|a|..];
  }

  lemma Associative<T>(a: seq<T>, b: seq<T>, c: seq<T>)
    ensures a + (b + c) == (a + b) + c
  {
  }
}
