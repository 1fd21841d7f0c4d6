/** Little-endian integers and fixed-size fields of the wire format (Net/NetCommon.h). */
module Bytes {
  import opened Movement

  type U16 = n: nat | n < 0x1_0000
  type U32 = n: nat | n < 0x1_0000_0000
  type I16 = n: int | -0x8000 <= n < 0x8000

  /** Byte i of a little-endian 32-bit value. */
  function ByteOf(v: U32, i: nat): Byte
    requires i < 4
  {
    if i == 0 then v % 0x100
    else if i == 1 then v / 0x100 % 0x100
    else if i == 2 then v / 0x1_0000 % 0x100
    else v / 0x100_0000
  }

  function ReadU32LE(b: seq<Byte>, at: nat): U32
    requires at + 4 <= |b|
  {
    b[at] as int + 0x100 * (b[at + 1] as int) + 0x1_0000 * (b[at + 2] as int) + 0x100_0000 * (b[at + 3] as int)
  }

  function ReadU16LE(b: seq<Byte>, at: nat): U16
    requires at + 2 <= |b|
  {
    b[at] as int + 0x100 * (b[at + 1] as int)
  }

  /** The unsigned image of a signed 16-bit value, and back. */
  function AsUnsigned(v: I16): U16 {
    if v < 0 then v + 0x1_0000 else v
  }

  function AsSigned(v: U16): I16 {
    if v >= 0x8000 then v - 0x1_0000 else v
  }

  function ReadI16LE(b: seq<Byte>, at: nat): I16
    requires at + 2 <= |b|
  {
    AsSigned(ReadU16LE(b, at))
  }

  /** The lowest byte comes first. */
  lemma LowestByteFirst(v: U32)
    ensures v == ByteOf(v, 0) as int + 256 * (ByteOf(v, 1) as int) + 65536 * (ByteOf(v, 2) as int) + 16777216 * (ByteOf(v, 3) as int)
  {
    TwoDigits(v, 0x100);
    TwoDigits(v / 0x100, 0x100);
    TwoDigits(v / 0x1_0000, 0x100);
    assert v / 0x100 / 0x100 == v / 0x1_0000 && v / 0x1_0000 / 0x100 == v / 0x100_0000;
  }

  lemma TwoDigits(v: nat, base: nat)
    requires base == 0x100
    ensures v == v % base + base * (v / base)
  {
  }

  lemma ReadBackU32(b: seq<Byte>, at: nat, v: U32)
    requires at + 4 <= |b| && forall i | 0 <= i < 4 :: b[at + i] == ByteOf(v, i)
    ensures ReadU32LE(b, at) == v
  {
    LowestByteFirst(v);
    hide ByteOf;
    assert b[at + 0] == ByteOf(v, 0) && b[at + 1] == ByteOf(v, 1) && b[at + 2] == ByteOf(v, 2) && b[at + 3] == ByteOf(v, 3);
  }

  lemma ReadBackU16(b: seq<Byte>, at: nat, v: U16)
    requires at + 2 <= |b| && forall i | 0 <= i < 2 :: b[at + i] == ByteOf(v, i)
    ensures ReadU16LE(b, at) == v
  {
    assert b[at + 0] == ByteOf(v, 0) && b[at + 1] == ByteOf(v, 1);
  }

  lemma ReadBackI16(b: seq<Byte>, at: nat, v: I16)
    requires at + 2 <= |b| && forall i | 0 <= i < 2 :: b[at + i] == ByteOf(AsUnsigned(v), i)
    ensures ReadI16LE(b, at) == v
  {
    ReadBackU16(b, at, AsUnsigned(v));
  }

  method WriteU32LE(out: array<Byte>, at: nat, v: U32)
    requires at + 4 <= out.Length
    modifies out
    ensures forall i | 0 <= i < 4 :: out[at + i] == ByteOf(v, i)
    ensures forall k | 0 <= k < out.Length && !(at <= k < at + 4) :: out[k] == old(out[k])
  {
    out[at] := v % 0x100;
    out[at + 1] := v / 0x100 % 0x100;
    out[at + 2] := v / 0x1_0000 % 0x100;
    out[at + 3] := v / 0x100_0000;
  }

  method WriteU16LE(out: array<Byte>, at: nat, v: U16)
    requires at + 2 <= out.Length
    modifies out
    ensures forall i | 0 <= i < 2 :: out[at + i] == ByteOf(v, i)
    ensures forall k | 0 <= k < out.Length && !(at <= k < at + 2) :: out[k] == old(out[k])
  {
    out[at] := v % 0x100;
    out[at + 1] := v / 0x100;
  }

  /** A count cut to what its array holds. */
  function AtMost(v: Byte, bound: Byte): Byte {
    if v <= bound then v else bound
  }

  // ----- NUL-padded names -----

  const PLAYER_NAME_MAX := 16

  /** Length of a C string in a bounded field. */
  function BoundedStrLen(name: seq<Byte>, maxBytes: nat): (n: nat)
    requires maxBytes <= |name|
    ensures n <= maxBytes
    ensures forall i | 0 <= i < n :: name[i] != 0
    ensures n < maxBytes ==> name[n] == 0
  {
    if maxBytes == 0 || name[0] == 0 then 0 else 1 + BoundedStrLen(name[1..], maxBytes - 1)
  }

  /** The length is the only one with that property. */
  lemma {:induction false} StrLenIs(name: seq<Byte>, maxBytes: nat, n: nat)
    requires n <= maxBytes <= |name|
    requires forall i | 0 <= i < n :: name[i] != 0
    requires n < maxBytes ==> name[n] == 0
    ensures BoundedStrLen(name, maxBytes) == n
  {
    if n > 0 {
      StrLenIs(name[1..], maxBytes - 1, n - 1);
    }
  }

  /** Byte i of a serialised name: everything from the terminator on is zero. */
  function NameByte(name: seq<Byte>, i: nat): Byte
    requires |name| == PLAYER_NAME_MAX && i < PLAYER_NAME_MAX
  {
    if i < BoundedStrLen(name, PLAYER_NAME_MAX - 1) then name[i] else 0
  }

  /** A terminated, zero-padded name. */
  predicate Padded(name: seq<Byte>) {
    && |name| == PLAYER_NAME_MAX
    && forall i | BoundedStrLen(name, PLAYER_NAME_MAX - 1) <= i < PLAYER_NAME_MAX :: name[i] == 0
  }

  lemma PaddedIsItsBytes(name: seq<Byte>)
    requires |name| == PLAYER_NAME_MAX
    ensures Padded(name) <==> name == seq(PLAYER_NAME_MAX, i requires 0 <= i < PLAYER_NAME_MAX => NameByte(name, i))
  {
    hide BoundedStrLen;
    var bytes := seq(PLAYER_NAME_MAX, i requires 0 <= i < PLAYER_NAME_MAX => NameByte(name, i));
    if name == bytes {
      forall i | BoundedStrLen(name, PLAYER_NAME_MAX - 1) <= i < PLAYER_NAME_MAX ensures name[i] == 0 {
        assert name[i] == bytes[i];
      }
    }
  }

}
