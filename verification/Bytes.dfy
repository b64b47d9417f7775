/** Bytes, byte strings and the 32-bit integer layouts used on every socket and file. */
module Bytes {

  newtype Byte = b: int | 0 <= b < 256
  type Bytes = seq<Byte>
  type U32 = x: int | 0 <= x < 0x1_0000_0000

  const U32_RANGE: int := 0x1_0000_0000

  /** hton/ntoh on uint32_t: most significant byte first. */
  function ToBE(x: U32): (b: Bytes)
    ensures |b| == 4
  {
    [(x / 0x100_0000) as Byte, (x / 0x1_0000 % 256) as Byte, (x / 256 % 256) as Byte, (x % 256) as Byte]
  }

  function FromBE(b: Bytes): U32
    requires |b| >= 4
  {
    var (b0, b1, b2, b3) := (b[0] as int, b[1] as int, b[2] as int, b[3] as int);
    b0 * 0x100_0000 + b1 * 0x1_0000 + b2 * 256 + b3
  }

  /** Integers of the bitcoin wire format: least significant byte first. */
  function FromLE(b: Bytes): U32
    requires |b| >= 4
  {
    FromBE([b[3], b[2], b[1], b[0]])
  }

  function ToLE(x: U32): (b: Bytes)
    ensures |b| == 4
  {
    [(x % 256) as Byte, (x / 256 % 256) as Byte, (x / 0x1_0000 % 256) as Byte, (x / 0x100_0000) as Byte]
  }

  /** The number whose digits to the base 256 these are, the most significant first. */
  function Number(digits: Bytes): nat {
    if digits == [] then 0 else 256 * Number(digits[..|digits| - 1]) + digits[|digits| - 1] as int
  }

  function Reversed(b: Bytes): (r: Bytes)
    ensures |r| == |b| && forall i :: 0 <= i < |b| ==> r[i] == b[|b| - 1 - i]
  {
    seq(|b|, i requires 0 <= i < |b| => b[|b| - 1 - i])
  }

  lemma NumberOfFour(b: Bytes)
    requires |b| == 4
    ensures Number(b) == b[0] as int * 0x100_0000 + b[1] as int * 0x1_0000 + b[2] as int * 256 + b[3] as int
  {
    assert b[..3][..2] == b[..2] && b[..2][..1] == b[..1] && b[..1][..0] == [];
    assert Number(b[..1]) == b[0] as int;
    assert Number(b[..2]) == 256 * Number(b[..1]) + b[1] as int;
    assert Number(b[..3]) == 256 * Number(b[..2]) + b[2] as int;
  }

  /** Network order is most significant byte first, the bitcoin order least significant byte first. */
  lemma ByteOrders(b: Bytes)
    requires |b| >= 4
    ensures FromBE(b) == Number(b[..4]) && FromLE(b) == Number(Reversed(b[..4]))
  {
    NumberOfFour(b[..4]);
    NumberOfFour(Reversed(b[..4]));
  }

  lemma LittleEndianRoundTrip(x: U32)
    ensures FromLE(ToLE(x)) == x && Number(ToBE(x)) == x && ToLE(x) == Reversed(ToBE(x))
  {
    FourDigits(x);
    NumberOfFour(ToBE(x));
  }

  /** A string of ASCII characters as bytes. */
  function Ascii(s: string): (b: Bytes)
    ensures |b| == |s|
  {
    seq(|s|, i requires 0 <= i < |s| => (s[i] as int % 256) as Byte)
  }

  /** htobe64 as eight bytes. */
  function ToBE64(x: nat): (b: Bytes)
    requires x < U32_RANGE * U32_RANGE
    ensures |b| == 8
  {
    ToBE(x / U32_RANGE) + ToBE(x % U32_RANGE)
  }

  /** The network-order length survives the round trip, whatever follows it. */
  lemma BigEndianRoundTrip(x: U32, rest: Bytes)
    ensures FromBE(ToBE(x) + rest) == x
    ensures FromBE(ToBE(x)) == x
  {
    var b := ToBE(x) + rest;
    assert b[0] == ToBE(x)[0] && b[1] == ToBE(x)[1] && b[2] == ToBE(x)[2] && b[3] == ToBE(x)[3];
    FourDigits(x);
  }

  lemma FourDigits(x: U32)
    ensures x == (x / 0x100_0000) * 0x100_0000 + (x / 0x1_0000 % 256) * 0x1_0000 + (x / 256 % 256) * 256 + x % 256
  {
    var q1, q2, q3 := x / 256, x / 0x1_0000, x / 0x100_0000;
    assert q1 / 256 == q2 && q2 / 256 == q3;
  }

  lemma BigEndianInjective(b: Bytes)
    requires |b| == 4
    ensures ToBE(FromBE(b)) == b
  {
    var (b0, b1, b2, b3) := (b[0] as int, b[1] as int, b[2] as int, b[3] as int);
    var x := FromBE(b);
    assert x / 256 == b0 * 0x1_0000 + b1 * 256 + b2;
    assert x / 0x1_0000 == b0 * 256 + b1;
    assert x / 0x100_0000 == b0;
    assert ToBE(x) == [b[0], b[1], b[2], b[3]];
  }

  function Pow2(bits: nat): (p: nat)
    ensures p >= 1
  {
    if bits == 0 then 1 else 2 * Pow2(bits - 1)
  }

  /** A size_t narrowed by a (uint32_t) cast. */
  function Narrow(n: nat): U32 {
    n % U32_RANGE
  }

  function Zeros(n: nat): (z: Bytes)
    ensures |z| == n && forall i :: 0 <= i < n ==> z[i] == 0
  {
    seq(n, _ => 0)
  }

  function Min(a: nat, b: nat): nat {
    if a <= b then a else b
  }

  function Max(a: nat, b: nat): nat {
    if a >= b then a else b
  }

  /** What a resize keeps: the common prefix, zero-filled up to the new size. */
  function Resize(s: Bytes, n: nat): (r: Bytes)
    ensures |r| == n
    ensures r[..Min(|s|, n)] == s[..Min(|s|, n)]
    ensures forall i :: |s| <= i < n ==> r[i] == 0
  {
    if n <= |s| then s[..n] else s + Zeros(n - |s|)
  }

  /** memcpy of `data` to offset `off`. */
  function Patch(s: Bytes, off: nat, data: Bytes): (r: Bytes)
    requires off + |data| <= |s|
    ensures |r| == |s|
    ensures r[off..off + |data|] == data
    ensures r[..off] == s[..off] && r[off + |data|..] == s[off + |data|..]
    ensures r[..off + |data|] == s[..off] + data
  {
    s[..off] + data + s[off + |data|..]
  }

  lemma Associate<T>(a: seq<T>, b: seq<T>, c: seq<T>)
    ensures a + (b + c) == (a + b) + c
  {
  }

  lemma Rejoin<T>(s: seq<T>)
    requires s != []
    ensures s[..|s| - 1] + [s[|s| - 1]] == s
  {
  }

  function Flatten(parts: seq<Bytes>): Bytes {
    if parts == [] then [] else parts[0] + Flatten(parts[1..])
  }

  lemma {:induction false} FlattenAppend(a: seq<Bytes>, b: seq<Bytes>)
    ensures Flatten(a + b) == Flatten(a) + Flatten(b)
  {
    if a == [] {
      assert a + b == b;
    } else {
      FlattenAppend(a[1..], b);
      assert (a + b)[1..] == a[1..] + b;
      assert a[0] + (Flatten(a[1..]) + Flatten(b)) == a[0] + Flatten(a[1..]) + Flatten(b);
    }
  }

  lemma FlattenSnoc(a: seq<Bytes>, m: Bytes)
    ensures Flatten(a + [m]) == Flatten(a) + m
  {
    FlattenAppend(a, [m]);
    assert Flatten([m]) == m + Flatten([]) == m;
  }
}
