/** Extracting signals from CAN frames by their bit positions, with sign extension. */
module Dbc {
  import opened Common
  import opened Bytes

  function Pow2(n: nat): (p: nat)
    ensures p > 0
  {
    if n == 0 then 1 else 2 * Pow2(n - 1)
  }

  /** x shifted right by n bits. */
  function Shr(x: nat, n: nat): nat {
    if n == 0 then x else Shr(x / 2, n - 1)
  }

  /** The low n bits of x. */
  function Low(x: nat, n: nat): nat {
    if n == 0 then 0 else x % 2 + 2 * Low(x / 2, n - 1)
  }

  lemma {:induction false} ShrIsDivision(x: nat, n: nat)
    ensures Shr(x, n) == x / Pow2(n)
  {
    if n > 0 {
      ShrIsDivision(x / 2, n - 1);
      HalveThenDivide(x, Pow2(n - 1));
    }
  }

  lemma HalveThenDivide(x: nat, p: nat)
    requires p > 0
    ensures x / 2 / p == x / (2 * p)
  {
    var q, r := x / 2 / p, x / 2 % p;
    assert x / 2 == q * p + r;
    var m := 2 * r + x % 2;
    assert x == 2 * (q * p) + m;
    assert 2 * (q * p) == q * (2 * p);
    DivModUnique(x, 2 * p, q, m);
  }

  lemma HalveThenRemainder(x: nat, p: nat)
    requires p > 0
    ensures x % 2 + 2 * (x / 2 % p) == x % (2 * p)
  {
    var q, r := x / 2 / p, x / 2 % p;
    assert x / 2 == q * p + r;
    var m := x % 2 + 2 * r;
    assert x == 2 * (q * p) + m;
    assert 2 * (q * p) == q * (2 * p);
    DivModUnique(x, 2 * p, q, m);
  }

  lemma {:induction false} LowIsRemainder(x: nat, n: nat)
    ensures Low(x, n) == x % Pow2(n) && Low(x, n) < Pow2(n)
  {
    if n > 0 {
      LowIsRemainder(x / 2, n - 1);
      HalveThenRemainder(x, Pow2(n - 1));
    }
  }

  lemma {:induction false} ShrTwice(x: nat, m: nat, n: nat)
    ensures Shr(Shr(x, m), n) == Shr(x, m + n)
  {
    if m > 0 {
      ShrTwice(x / 2, m - 1, n);
    }
  }

  lemma LowNone(x: nat)
    ensures Low(x, 0) == 0
  {
  }

  /** One more low bit. */
  lemma {:induction false} LowStep(x: nat, n: nat)
    ensures Low(x, n + 1) == Low(x, n) + if Shr(x, n) % 2 == 1 then Pow2(n) else 0
  {
    if n > 0 {
      LowStep(x / 2, n - 1);
    }
  }

  // ---------------------------------------------------------------- bits of a frame

  /** The bytes as one little-endian integer. */
  function Le(d: seq<Byte>): nat {
    if d == [] then 0 else d[0] + 256 * Le(d[1..])
  }

  /** Bit n of the frame in Intel order: bit n % 8 of byte n / 8. */
  predicate Bit(d: seq<Byte>, n: nat)
    requires n / 8 < |d|
  {
    Shr(d[n / 8], n % 8) % 2 == 1
  }

  lemma ShrByte(x: nat, rest: nat, k: nat)
    requires k < 8
    ensures Shr(x + 256 * rest, k) % 2 == Shr(x, k) % 2
  {
    Pow8();
    ShrBits(x, 256 * rest, k, 8);
  }

  /** Adding a multiple of 2^m leaves the bits below m alone. */
  lemma {:induction false} ShrBits(x: nat, add: nat, k: nat, m: nat)
    requires k < m && add % Pow2(m) == 0
    ensures Shr(x + add, k) % 2 == Shr(x, k) % 2
  {
    var p := Pow2(m - 1);
    var q := add / (2 * p);
    assert add == q * (2 * p);
    assert q * (2 * p) == 2 * (q * p);
    if k > 0 {
      assert (x + add) / 2 == x / 2 + q * p;
      DivModUnique(q * p, p, q, 0);
      ShrBits(x / 2, q * p, k - 1, m - 1);
    }
  }

  lemma ShrEight(x: nat, rest: nat)
    requires x < 256
    ensures Shr(x + 256 * rest, 8) == rest
  {
    ShrIsDivision(x + 256 * rest, 8);
    Pow8();
  }

  /** Bit n of the frame is bit n of the little-endian integer. */
  lemma {:induction false} BitIsLe(d: seq<Byte>, n: nat)
    requires n / 8 < |d|
    ensures Bit(d, n) <==> Shr(Le(d), n) % 2 == 1
  {
    if n < 8 {
      ShrByte(d[0], Le(d[1..]), n);
    } else {
      ShrEight(d[0], Le(d[1..]));
      ShrTwice(Le(d), 8, n - 8);
      BitIsLe(d[1..], n - 8);
    }
  }

  // ---------------------------------------------------------------- extraction

  /** The bit loop; setting bit i of a value below 2^i adds 2^i. */
  method ExtractIntel(d: seq<Byte>, start: nat, len: nat) returns (v: nat)
    requires len > 0 && (start + len - 1) / 8 < |d|
    ensures v == Le(d) / Pow2(start) % Pow2(len)
  {
    hide Le, Shr, Low;
    v := 0;
    var i: nat := 0;
    ghost var x := Shr(Le(d), start);
    LowNone(x);
    while i < len
      invariant i <= len && v == Low(x, i)
    {
      var pos := start + i;
      assert pos / 8 < |d|;
      BitIsLe(d, pos);
      ShrTwice(Le(d), start, i);
      LowStep(x, i);
      LowIsRemainder(x, i);
      if Bit(d, pos) {
        v := v + Pow2(i);
      }
      i := i + 1;
    }
    ShrIsDivision(Le(d), start);
    LowIsRemainder(x, len);
  }

  /** The low n bits of x, lowest first. */
  function Bits(x: nat, n: nat): (bs: seq<nat>)
    ensures |bs| == n && forall j :: 0 <= j < n ==> bs[j] < 2
  {
    if n == 0 then [] else [x % 2] + Bits(x / 2, n - 1)
  }

  function FromBits(bs: seq<nat>): nat {
    if bs == [] then 0 else bs[0] + 2 * FromBits(bs[1..])
  }

  function Flipped(bs: seq<nat>): (r: seq<nat>)
    ensures |r| == |bs| && forall j :: 0 <= j < |bs| ==> r[j] == bs[|bs| - 1 - j]
  {
    seq(|bs|, j requires 0 <= j < |bs| => bs[|bs| - 1 - j])
  }

  lemma {:induction false} BitsAt(x: nat, n: nat, j: nat)
    requires j < n
    ensures Bits(x, n)[j] == Shr(x, j) % 2
  {
    if j > 0 {
      BitsAt(x / 2, n - 1, j - 1);
    }
  }

  lemma {:induction false} FromBitsAt(bs: seq<nat>, j: nat)
    requires j < |bs| && forall k :: 0 <= k < |bs| ==> bs[k] < 2
    ensures Shr(FromBits(bs), j) % 2 == bs[j]
  {
    if j > 0 {
      FromBitsAt(bs[1..], j - 1);
    }
  }

  lemma {:induction false} FromBitsBound(bs: seq<nat>)
    requires forall k :: 0 <= k < |bs| ==> bs[k] < 2
    ensures FromBits(bs) < Pow2(|bs|)
  {
    if bs != [] {
      FromBitsBound(bs[1..]);
    }
  }

  /** The byte with its bits in the opposite order. */
  function Reversed(b: Byte): Byte {
    FromBitsBound(Flipped(Bits(b, 8)));
    Pow8();
    FromBits(Flipped(Bits(b, 8)))
  }

  function AllReversed(d: seq<Byte>): (r: seq<Byte>)
    ensures |r| == |d| && forall i :: 0 <= i < |d| ==> r[i] == Reversed(d[i])
  {
    seq(|d|, i requires 0 <= i < |d| => Reversed(d[i]))
  }

  /** Bit 7 - k of a byte is bit k of the reversed byte. */
  lemma ReversedBit(b: Byte, k: nat)
    requires k < 8
    ensures Shr(b, 7 - k) % 2 == Shr(Reversed(b), k) % 2
  {
    hide Bits, FromBits, Shr;
    BitsAt(b, 8, 7 - k);
    FromBitsAt(Flipped(Bits(b, 8)), k);
  }

  lemma Pow8()
    ensures Pow2(8) == 256
  {
    assert Pow2(4) == 16;
    assert Pow2(6) == 64;
  }

  /**
   * The descending bit loop reads bit 7 - n % 8 of byte n / 8: it is the ascending extraction,
   * ending at the same position, from the frame with every byte reversed.
   */
  method ExtractMotorola(d: seq<Byte>, start: nat, len: nat) returns (v: nat)
    requires len > 0 && start + 1 >= len && start / 8 < |d|
    ensures v == Le(AllReversed(d)) / Pow2(start + 1 - len) % Pow2(len)
  {
    hide Le, Shr, Low, Reversed;
    ghost var r := AllReversed(d);
    ghost var low := start + 1 - len;
    ghost var x := Shr(Le(r), low);
    v := SumDown(d, r, start, len, x);
    ShrIsDivision(Le(r), low);
    LowIsRemainder(x, len);
  }

  lemma FlippedBit(d: seq<Byte>, r: seq<Byte>, n: nat)
    requires r == AllReversed(d) && n / 8 < |d|
    ensures Bit(r, n) <==> Shr(d[n / 8], 7 - n % 8) % 2 == 1
  {
    hide Shr, Reversed;
    ReversedBit(d[n / 8], n % 8);
  }

  /** Bits from the most significant one down; the value so far is the high part of the result. */
  method SumDown(d: seq<Byte>, ghost r: seq<Byte>, start: nat, len: nat, ghost x: nat) returns (v: nat)
    requires len > 0 && start + 1 >= len && start / 8 < |d| && r == AllReversed(d)
    requires x == Shr(Le(r), start + 1 - len)
    ensures v == Low(x, len)
  {
    hide Le, Shr, Low, Reversed, Pow2, Bit;
    v := 0;
    var i: nat := 0;
    while i < len
      invariant i <= len && v + Low(x, len - i) == Low(x, len)
    {
      var pos := start - i;
      var k := len - 1 - i;
      assert Bit(r, pos) <==> Shr(d[pos / 8], 7 - pos % 8) % 2 == 1 by { FlippedBit(d, r, pos); }
      BitIsLe(r, pos);
      ShrTwice(Le(r), start + 1 - len, k);
      LowStep(x, k);
      if Shr(d[pos / 8], 7 - pos % 8) % 2 == 1 {
        v := v + Pow2(k);
      }
      i := i + 1;
    }
    LowNone(x);
  }

  // ---------------------------------------------------------------- signals

  datatype Signal = Signal(start: int, length: int, motorola: bool, signed: bool)

  const TWO63: nat := 0x8000_0000_0000_0000
  const TWO64: nat := 0x1_0000_0000_0000_0000

  /** All bits of the signal lie in the first |d| bytes. */
  predicate Accepted(sig: Signal, d: seq<Byte>) {
    && 0 < sig.length <= 64
    && if sig.motorola then sig.start - sig.length + 1 >= 0 && sig.start / 8 < |d|
       else sig.start >= 0 && (sig.start + sig.length - 1) / 8 < |d|
  }

  /** The bits of an accepted signal as an unsigned number. */
  ghost function Field(sig: Signal, d: seq<Byte>): nat
    requires Accepted(sig, d)
  {
    if sig.motorola then Le(AllReversed(d)) / Pow2(sig.start + 1 - sig.length) % Pow2(sig.length)
    else Le(d) / Pow2(sig.start) % Pow2(sig.length)
  }

  /** Setting all bits from `length` up when the top bit of the field is set. */
  function Extended(v: nat, length: nat): int
    requires 0 < length
  {
    if v >= Pow2(length - 1) then v + (TWO64 - Pow2(length)) else v
  }

  /** A 64-bit pattern read as a signed number. */
  function Signed64(raw: int): int { if raw >= TWO63 then raw - TWO64 else raw }

  /** An n-bit pattern read in two's complement. */
  function TwosComplement(v: nat, n: nat): int
    requires n > 0
  {
    if v >= Pow2(n - 1) then v - Pow2(n) else v
  }

  lemma {:induction false} PowMonotone(a: nat, b: nat)
    requires a <= b
    ensures Pow2(a) <= Pow2(b)
  {
    if a < b {
      PowMonotone(a, b - 1);
    }
  }

  lemma Pow63()
    ensures Pow2(63) == TWO63
  {
    Pow32();
    assert Pow2(7) == 128 by { Pow8(); }
    hide Pow2;
    PowSum(32, 16);
    PowSum(48, 8);
    PowSum(56, 7);
  }

  lemma Pow32()
    ensures Pow2(8) == 256 && Pow2(16) == TWO16 && Pow2(32) == TWO32
  {
    Pow8();
    hide Pow2;
    PowSum(8, 8);
    PowSum(16, 16);
  }

  lemma {:induction false} PowSum(a: nat, b: nat)
    ensures Pow2(a + b) == Pow2(a) * Pow2(b)
  {
    if b > 0 {
      PowSum(a, b - 1);
      assert a + b - 1 == a + (b - 1);
      assert Pow2(a) * (2 * Pow2(b - 1)) == 2 * (Pow2(a) * Pow2(b - 1));
    }
  }

  /** Sign extension preserves the two's-complement value. */
  lemma SignExtension(v: nat, length: nat)
    requires 0 < length < 64 && v < Pow2(length)
    ensures 0 <= Extended(v, length) < TWO64 && Signed64(Extended(v, length)) == TwosComplement(v, length)
  {
    PowMonotone(length, 63);
    Pow63();
    assert Pow2(length) == 2 * Pow2(length - 1);
  }

  /** Decodes one signal from the frame's data; None when it does not fit. */
  method DecodeRaw(sig: Signal, d: seq<Byte>) returns (raw: Option<nat>)
    requires !sig.motorola ==> sig.start >= 0
    ensures raw.Some? <==> Accepted(sig, d)
    ensures raw.Some? ==> raw.value == RawValue(sig, d)
  {
    hide Le, Pow2, AllReversed;
    if sig.length <= 0 || sig.length > 64 {
      return None;
    }
    var value: nat;
    if sig.motorola {
      if sig.start - sig.length + 1 < 0 {
        return None;
      }
      if sig.start / 8 >= |d| {
        return None;
      }
      value := ExtractMotorola(d, sig.start, sig.length);
    } else {
      if (sig.start + sig.length - 1) / 8 >= |d| {
        return None;
      }
      value := ExtractIntel(d, sig.start, sig.length);
    }
    if sig.signed && sig.length < 64 {
      if value >= Pow2(sig.length - 1) {
        FieldBound(sig, d);
        PowBelow(sig.length);
        value := value + (TWO64 - Pow2(sig.length));
      }
    }
    return Some(value);
  }

  lemma PowBelow(n: nat)
    requires n < 64
    ensures Pow2(n) <= TWO63
  {
    PowMonotone(n, 63);
    Pow63();
  }

  lemma FieldBound(sig: Signal, d: seq<Byte>)
    requires Accepted(sig, d)
    ensures Field(sig, d) < Pow2(sig.length)
  {
    hide Le, AllReversed;
  }

  /** The raw value of an accepted signal, as DecodeRaw returns it. */
  ghost function RawValue(sig: Signal, d: seq<Byte>): int
    requires Accepted(sig, d)
  {
    if sig.signed && sig.length < 64 then Extended(Field(sig, d), sig.length) else Field(sig, d)
  }

  /** The number a signal stands for: its field, in two's complement if the signal is signed. */
  ghost function Meaning(sig: Signal, d: seq<Byte>): int
    requires Accepted(sig, d)
  {
    if sig.signed then TwosComplement(Field(sig, d), sig.length) else Field(sig, d)
  }

  /**
   * The physical value is computed from the raw value read as a signed 64-bit number.  That is the
   * number the signal stands for, except for an unsigned signal of all 64 bits with its top bit set.
   */
  lemma DecodedValueIff(sig: Signal, d: seq<Byte>)
    requires Accepted(sig, d)
    ensures Signed64(RawValue(sig, d)) == Meaning(sig, d)
            <==> sig.signed || sig.length < 64 || Field(sig, d) < TWO63
  {
    FieldBound(sig, d);
    Pow63();
    hide Field;
    if sig.length < 64 {
      PowBelow(sig.length);
      SignExtension(Field(sig, d), sig.length);
    } else {
      assert Pow2(64) == 2 * Pow2(63);
    }
  }

  /** The failing input: an unsigned signal over eight bytes, the last of them 128, comes out as -2^63. */
  lemma TopBitSet()
    ensures var sig, d := Signal(0, 64, false, false), [0, 0, 0, 0, 0, 0, 0, 128];
            Accepted(sig, d) && Meaning(sig, d) == TWO63 && Signed64(RawValue(sig, d)) + TWO63 == 0
  {
    var d := [0, 0, 0, 0, 0, 0, 0, 128];
    assert Le(d[8..]) == 0 && Le(d[7..]) == 128;
    assert d[7..] == d[6..][1..] && d[6..] == d[5..][1..] && d[5..] == d[4..][1..] && d[4..] == d[3..][1..];
    assert d[3..] == d[2..][1..] && d[2..] == d[1..][1..];
    assert Le(d[6..]) == 128 * 256 && Le(d[5..]) == 128 * 256 * 256;
    assert Le(d[4..]) == 128 * 256 * 256 * 256 && Le(d[3..]) == 128 * TWO32;
    assert Le(d[2..]) == 128 * 256 * TWO32 && Le(d[1..]) == 128 * 256 * 256 * TWO32;
    assert Le(d) == TWO63;
    Pow63();
    assert Pow2(0) == 1 && Pow2(64) == 2 * Pow2(63);
    hide Le, Pow2;
    assert TWO63 / 1 == TWO63 && TWO63 % TWO64 == TWO63;
  }
}
