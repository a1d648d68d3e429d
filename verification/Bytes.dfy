/** Unsigned bytes and the little-endian integers that the persistent format is made of. */
module Bytes {
  type byte = x: int | 0 <= x < 0x100
  type u16 = x: int | 0 <= x < 0x1_0000
  type u32 = x: int | 0 <= x < 0x1_0000_0000

  type u64 = x: int | 0 <= x < 0x1_0000_0000_0000_0000

  const U32_MAX: u32 := 0xffff_ffff

  /** The two bytes `put_u16` writes. */
  function PutU16(value: u16): (bytes: seq<byte>)
    ensures |bytes| == 2
  {
    [value % 0x100, value / 0x100]
  }

  /** The four bytes `put_u32` writes. */
  function PutU32(value: u32): (bytes: seq<byte>)
    ensures |bytes| == 4
  {
    [value % 0x100, value / 0x100 % 0x100, value / 0x1_0000 % 0x100, value / 0x100_0000]
  }

  function FromBytes2(b0: int, b1: int): int {
    b0 + 0x100 * b1
  }

  function FromBytes4(b0: int, b1: int, b2: int, b3: int): int {
    b0 + 0x100 * b1 + 0x1_0000 * b2 + 0x100_0000 * b3
  }

  function GetU16(data: seq<byte>, at: nat): u16
    requires at + 2 <= |data|
  {
    FromBytes2(data[at], data[at + 1])
  }

  function GetU32(data: seq<byte>, at: nat): u32
    requires at + 4 <= |data|
  {
    FromBytes4(data[at], data[at + 1], data[at + 2], data[at + 3])
  }

  lemma PutGetU16(data: seq<byte>, at: nat, value: u16)
    requires at + 2 <= |data| && data[at..at + 2] == PutU16(value)
    ensures GetU16(data, at) == value
  {
    assert data[at] == data[at..at + 2][0] && data[at + 1] == data[at..at + 2][1];
  }

  lemma PutGetU32(data: seq<byte>, at: nat, value: u32)
    requires at + 4 <= |data| && data[at..at + 4] == PutU32(value)
    ensures GetU32(data, at) == value
  {
    var window := data[at..at + 4];
    assert data[at] == window[0] && data[at + 1] == window[1] && data[at + 2] == window[2] && data[at + 3] == window[3];
    var half := value / 0x100;
    assert half / 0x100 == value / 0x1_0000 && half / 0x100 / 0x100 == value / 0x100_0000;
  }

  // ----- Parts of a byte sequence -----

  /** The bytes `part` stand at position `at`. */
  predicate Holds(data: seq<byte>, at: nat, part: seq<byte>) {
    at + |part| <= |data| && data[at..at + |part|] == part
  }

  lemma HoldsSplit(data: seq<byte>, at: nat, left: seq<byte>, right: seq<byte>)
    requires Holds(data, at, left + right)
    ensures Holds(data, at, left) && Holds(data, at + |left|, right)
  {
    var both := data[at..at + |left + right|];
    assert data[at..at + |left|] == both[..|left|];
    assert data[at + |left|..at + |left| + |right|] == both[|left|..];
  }

  lemma HoldsFour(data: seq<byte>, at: nat, a: seq<byte>, b: seq<byte>, c: seq<byte>, d: seq<byte>)
    requires Holds(data, at, a + b + c + d)
    ensures Holds(data, at, a) && Holds(data, at + |a|, b)
    ensures Holds(data, at + |a| + |b|, c) && Holds(data, at + |a| + |b| + |c|, d)
  {
    hide Holds;
    HoldsSplit(data, at, a + b + c, d);
    HoldsSplit(data, at, a + b, c);
    HoldsSplit(data, at, a, b);
  }

  lemma HoldsAt(data: seq<byte>, at: nat, part: seq<byte>, i: nat)
    requires Holds(data, at, part) && i < |part|
    ensures data[at + i] == part[i]
  {
    assert data[at + i] == data[at..at + |part|][i];
  }

  lemma HoldsJoin(data: seq<byte>, at: nat, left: seq<byte>, right: seq<byte>)
    requires Holds(data, at, left) && Holds(data, at + |left|, right)
    ensures Holds(data, at, left + right)
  {
    var both := data[at..at + |left| + |right|];
    assert both == data[at..at + |left|] + data[at + |left|..at + |left| + |right|];
  }
}
