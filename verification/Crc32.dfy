/**
 The bitwise CRC-32 of the configuration blobs, its table-driven form, and what it detects.
 The 32-bit register is kept as its bits, least significant first.
 */
module Crc32 {
  import opened Bytes

  type Word = w: seq<bool> | |w| == 32 witness Fill(32, false)

  /** The bits of a byte. */
  const OCTET: nat := 8

  const ZERO: Word := Fill(|POLYNOMIAL|, false)
  const ONES: Word := Fill(|POLYNOMIAL|, true)

  function Fill(count: nat, bit: bool): (bits: seq<bool>)
    ensures |bits| == count && forall i | 0 <= i < count :: bits[i] == bit
  {
    if count == 0 then [] else [bit] + Fill(count - 1, bit)
  }

  /** 0xedb88320, four bits to a line, least significant line first. */
  const POLYNOMIAL: Word := [
    false, false, false, false,
    false, true, false, false,
    true, true, false, false,
    false, false, false, true,
    false, false, false, true,
    true, true, false, true,
    true, false, true, true,
    false, true, true, true
  ]

  function Xor(x: Word, y: Word): Word {
    seq(32, i requires 0 <= i < 32 => x[i] != y[i])
  }

  function Not(x: Word): Word {
    seq(32, i requires 0 <= i < 32 => !x[i])
  }

  /** `x >> 1` */
  function ShiftRight(x: Word): Word {
    x[1..] + [false]
  }

  /** `x << count` */
  function ShiftLeft(x: Word, count: nat): Word {
    seq(32, i requires 0 <= i < 32 => i >= count && x[i - count])
  }

  // ----- Numbers and their bits -----

  function Pow2(n: nat): nat {
    if n == 0 then 1 else 2 * Pow2(n - 1)
  }

  lemma Pow2Of32()
    ensures Pow2(32) == 0x1_0000_0000
  {
    assert Pow2(8) == 0x100;
    assert Pow2(12) == 0x1000;
    assert Pow2(16) == 0x1_0000;
    assert Pow2(20) == 0x10_0000;
    assert Pow2(24) == 0x100_0000;
    assert Pow2(28) == 0x1000_0000;
  }

  function ToBits(n: nat, width: nat): (bits: seq<bool>)
    ensures |bits| == width
  {
    if width == 0 then [] else [n % 2 == 1] + ToBits(n / 2, width - 1)
  }

  function Value(bits: seq<bool>): (n: nat)
    ensures n < Pow2(|bits|)
  {
    if bits == [] then 0 else (if bits[0] then 1 else 0) + 2 * Value(bits[1..])
  }

  lemma {:induction false} ValueOfBits(n: nat, width: nat)
    requires n < Pow2(width)
    ensures Value(ToBits(n, width)) == n
  {
    if width > 0 {
      assert ToBits(n, width)[1..] == ToBits(n / 2, width - 1);
      ValueOfBits(n / 2, width - 1);
    }
  }

  lemma {:induction false} ValueInjective(x: seq<bool>, y: seq<bool>)
    requires |x| == |y| && Value(x) == Value(y)
    ensures x == y
  {
    if x != [] {
      ValueInjective(x[1..], y[1..]);
      assert x == [x[0]] + x[1..] && y == [y[0]] + y[1..];
    }
  }

  /** The register as the integer that the header stores. */
  function ToU32(w: Word): u32 {
    Pow2Of32();
    Value(w)
  }

  /** A byte promoted to a 32-bit word. */
  function Promote(b: byte): Word {
    ToBits(b, |ZERO|)
  }

  lemma {:induction false} ClearAbove(n: nat, width: nat, used: nat)
    requires n < Pow2(used)
    ensures forall i | used <= i < width :: !ToBits(n, width)[i]
  {
    if width > 0 {
      var rest := ToBits(n / 2, width - 1);
      assert ToBits(n, width) == [n % 2 == 1] + rest;
      if used > 0 {
        ClearAbove(n / 2, width - 1, used - 1);
      } else {
        ClearAbove(0, width - 1, 0);
      }
      forall i | used <= i < width ensures !ToBits(n, width)[i] {
        if i > 0 {
          assert ToBits(n, width)[i] == rest[i - 1];
        }
      }
    }
  }

  lemma PromoteLow(b: byte)
    ensures Low(Promote(b))
  {
    assert Pow2(8) == 0x100;
    ClearAbove(b, |ZERO|, OCTET);
  }

  lemma PromoteInjective(x: byte, y: byte)
    requires Promote(x) == Promote(y)
    ensures x == y
  {
    Pow2Of32();
    ValueOfBits(x, |ZERO|);
    ValueOfBits(y, |ZERO|);
  }

  // ----- One bit of the loop -----

  function Mask(bit: bool): Word {
    if bit then POLYNOMIAL else ZERO
  }

  function Step(crc: Word): Word {
    Xor(ShiftRight(crc), Mask(crc[0]))
  }

  /** The CRC step is linear over exclusive or. */
  lemma StepLinear(x: Word, y: Word)
    ensures Step(Xor(x, y)) == Xor(Step(x), Step(y))
  {
    assert forall i | 0 <= i < 32 :: Mask(x[0] != y[0])[i] == (Mask(x[0])[i] != Mask(y[0])[i]);
    assert forall i | 0 <= i < 32 :: ShiftRight(Xor(x, y))[i] == (ShiftRight(x)[i] != ShiftRight(y)[i]);
  }

  /** The polynomial has its top bit set, so the bit shifted out is still visible: a step loses nothing. */
  lemma StepInjective(x: Word, y: Word)
    requires Step(x) == Step(y)
    ensures x == y
  {
    assert Step(x)[31] == x[0] && Step(y)[31] == y[0];
    forall i | 0 < i < 32 ensures x[i] == y[i] {
      assert Step(x)[i - 1] == (x[i] != Mask(x[0])[i - 1]);
      assert Step(y)[i - 1] == (y[i] != Mask(y[0])[i - 1]);
    }
  }

  // ----- Several bits -----

  function Steps(crc: Word, count: nat): Word
    decreases count
  {
    if count == 0 then crc else Steps(Step(crc), count - 1)
  }

  lemma {:induction false} StepsLinear(x: Word, y: Word, count: nat)
    ensures Steps(Xor(x, y), count) == Xor(Steps(x, count), Steps(y, count))
    decreases count
  {
    hide Step, Xor, Fill;
    if count > 0 {
      StepLinear(x, y);
      StepsLinear(Step(x), Step(y), count - 1);
    }
  }

  lemma {:induction false} StepsInjective(x: Word, y: Word, count: nat)
    requires Steps(x, count) == Steps(y, count)
    ensures x == y
    decreases count
  {
    hide Step;
    if count > 0 {
      StepsInjective(Step(x), Step(y), count - 1);
      StepInjective(x, y);
    }
  }

  lemma {:induction false} StepsAdd(crc: Word, first: nat, second: nat)
    ensures Steps(crc, first + second) == Steps(Steps(crc, first), second)
    decreases first
  {
    hide Step;
    if first > 0 {
      StepsAdd(Step(crc), first - 1, second);
    }
  }

  lemma {:induction false} StepsZero(count: nat)
    ensures Steps(ZERO, count) == ZERO
  {
    if count > 0 {
      assert Step(ZERO) == ZERO;
      StepsZero(count - 1);
    }
  }

  /** The top `count` bits are clear. */
  predicate TopClear(w: Word, count: nat) {
    forall i | 0 <= i < 32 && 32 - count <= i :: !w[i]
  }

  lemma ShiftBack(w: Word, count: nat)
    requires 0 < count <= 32 && TopClear(w, count)
    ensures Step(ShiftLeft(w, count)) == ShiftLeft(w, count - 1)
  {
    var x := ShiftLeft(w, count);
    assert !x[0];
    forall i | 0 <= i < 32 ensures Step(x)[i] == ShiftLeft(w, count - 1)[i] {
      assert Step(x)[i] == ShiftRight(x)[i];
    }
  }

  /** As many steps as there are clear low bits only shift. */
  lemma {:induction false} StepsShift(w: Word, count: nat)
    requires TopClear(w, count) && count <= 32
    ensures Steps(ShiftLeft(w, count), count) == w
    decreases count
  {
    hide Step;
    if count == 0 {
      assert ShiftLeft(w, 0) == w;
    } else {
      ShiftBack(w, count);
      StepsShift(w, count - 1);
    }
  }

  // ----- Bytes -----

  /** One round of the outer loop: fold the byte into the register and shift out eight bits. */
  function Feed(crc: Word, b: byte): Word {
    Steps(Xor(crc, Promote(b)), OCTET)
  }

  function Register(crc: Word, data: seq<byte>): Word
    decreases |data|
  {
    if data == [] then crc else Register(Feed(crc, data[0]), data[1..])
  }

  function Crc(data: seq<byte>): Word {
    Not(Register(ONES, data))
  }

  lemma {:induction false} RegisterAppend(crc: Word, left: seq<byte>, right: seq<byte>)
    ensures Register(crc, left + right) == Register(Register(crc, left), right)
    decreases |left|
  {
    hide Feed;
    if left == [] {
      assert left + right == right;
    } else {
      assert (left + right)[0] == left[0] && (left + right)[1..] == left[1..] + right;
      RegisterAppend(Feed(crc, left[0]), left[1..], right);
    }
  }

  lemma RegisterNext(crc: Word, data: seq<byte>, index: nat)
    requires index < |data|
    ensures Register(crc, data[..index + 1]) == Feed(Register(crc, data[..index]), data[index])
  {
    hide Feed;
    assert data[..index + 1] == data[..index] + [data[index]];
    RegisterAppend(crc, data[..index], [data[index]]);
    var before := Register(crc, data[..index]);
    assert Register(before, [data[index]]) == Register(Feed(before, data[index]), []);
  }

  lemma StepsNext(crc: Word, count: nat)
    ensures Steps(crc, count + 1) == Step(Steps(crc, count))
  {
    hide Step;
    StepsAdd(crc, count, 1);
    assert Steps(Steps(crc, count), 1) == Steps(Step(Steps(crc, count)), 0);
  }

  method Compute(data: array<byte>, start: nat, length: nat) returns (result: Word)
    requires start + length <= data.Length
    ensures result == Crc(data[start..start + length])
  {
    hide Promote, ToBits, Xor, Mask, ShiftRight, Fill;
    var crc := ONES;
    ghost var all := data[start..start + length];
    for index := 0 to length
      invariant crc == Register(ONES, all[..index])
    {
      crc := Xor(crc, Promote(data[start + index]));
      ghost var mixed := crc;
      for bit := 0 to 8
        invariant crc == Steps(mixed, bit)
      {
        StepsNext(mixed, bit);
        crc := Xor(ShiftRight(crc), Mask(crc[0]));
      }
      RegisterNext(ONES, all, index);
    }
    assert all[..length] == all;
    result := Not(crc);
  }

  // ----- The table-driven form of section 8 of RFC 1952 -----

  function LowByte(w: Word): Word {
    w[..8] + ZERO[8..]
  }

  function ShiftRight8(w: Word): Word {
    w[8..] + ZERO[24..]
  }

  function TableRegister(crc: Word, data: seq<byte>): Word
    decreases |data|
  {
    if data == [] then crc
    else TableRegister(Xor(Steps(LowByte(Xor(crc, Promote(data[0]))), OCTET), ShiftRight8(crc)), data[1..])
  }

  lemma FeedByTable(crc: Word, b: byte)
    ensures Feed(crc, b) == Xor(Steps(LowByte(Xor(crc, Promote(b))), OCTET), ShiftRight8(crc))
  {
    hide Steps;
    var x := Xor(crc, Promote(b));
    PromoteLow(b);
    assert ShiftRight8(x) == ShiftRight8(crc);
    assert x == Xor(LowByte(x), ShiftLeft(ShiftRight8(x), OCTET));
    StepsLinear(LowByte(x), ShiftLeft(ShiftRight8(x), OCTET), OCTET);
    StepsShift(ShiftRight8(x), OCTET);
  }

  /** The bitwise loop computes the same register as the table-driven loop of the standard. */
  lemma {:induction false} BitwiseMatchesTable(crc: Word, data: seq<byte>)
    ensures Register(crc, data) == TableRegister(crc, data)
    decreases |data|
  {
    hide Feed, Steps, Xor, Promote, LowByte, ShiftRight8;
    if data != [] {
      FeedByTable(crc, data[0]);
      BitwiseMatchesTable(Feed(crc, data[0]), data[1..]);
    }
  }

  // ----- What the checksum detects -----

  lemma XorZero(x: Word, y: Word)
    ensures Xor(x, y) == ZERO <==> x == y
  {
    if Xor(x, y) == ZERO {
      forall i | 0 <= i < 32 ensures x[i] == y[i] {
        assert !Xor(x, y)[i];
      }
    }
  }

  /** The difference of two registers, fed with the differences of the bytes. */
  function Difference(delta: Word, left: seq<byte>, right: seq<byte>): Word
    requires |left| == |right|
    decreases |left|
  {
    if left == [] then delta
    else Difference(Steps(Xor(delta, Xor(Promote(left[0]), Promote(right[0]))), OCTET), left[1..], right[1..])
  }

  lemma {:induction false} RegistersDiffer(x: Word, y: Word, left: seq<byte>, right: seq<byte>)
    requires |left| == |right|
    ensures Xor(Register(x, left), Register(y, right)) == Difference(Xor(x, y), left, right)
    decreases |left|
  {
    hide Steps, Promote;
    if left != [] {
      var l, r := Promote(left[0]), Promote(right[0]);
      assert Xor(Xor(x, l), Xor(y, r)) == Xor(Xor(x, y), Xor(l, r));
      StepsLinear(Xor(x, l), Xor(y, r), OCTET);
      RegistersDiffer(Feed(x, left[0]), Feed(y, right[0]), left[1..], right[1..]);
    }
  }

  /** Equal bytes keep different registers different, because every step is injective. */
  lemma {:induction false} EqualTail(x: Word, y: Word, data: seq<byte>)
    requires Register(x, data) == Register(y, data)
    ensures x == y
    decreases |data|
  {
    hide Steps, Promote;
    if data != [] {
      var b := Promote(data[0]);
      EqualTail(Feed(x, data[0]), Feed(y, data[0]), data[1..]);
      StepsInjective(Xor(x, b), Xor(y, b), OCTET);
      forall i | 0 <= i < 32 ensures x[i] == y[i] {
        assert Xor(x, b)[i] == Xor(y, b)[i];
      }
    }
  }

  /** Only the low eight bits are set. */
  predicate Low(w: Word) {
    TopClear(w, 24)
  }

  lemma LowIsClear(w: Word)
    requires Low(w)
    ensures TopClear(w, OCTET) && TopClear(w, 24)
  {
  }

  /** Feeding a word after eight steps is the same as having it eight bits higher before them. */
  lemma Hoist(x: Word, w: Word)
    requires TopClear(w, OCTET)
    ensures Xor(Steps(x, OCTET), w) == Steps(Xor(x, ShiftLeft(w, OCTET)), OCTET)
  {
    hide Steps, Xor, ShiftLeft, TopClear;
    StepsLinear(x, ShiftLeft(w, OCTET), OCTET);
    StepsShift(w, OCTET);
  }

  lemma XorAssociative(x: Word, y: Word, z: Word)
    ensures Xor(Xor(x, y), z) == Xor(x, Xor(y, z))
  {
  }

  /** The word with `low` in its low byte and `rest` above it. */
  function Above(low: Word, rest: Word): Word {
    Xor(low, ShiftLeft(rest, OCTET))
  }

  lemma AboveClear(low: Word, rest: Word, count: nat)
    requires Low(low) && TopClear(rest, count + OCTET) && count <= 16
    ensures TopClear(Above(low, rest), count)
    ensures count >= OCTET ==> TopClear(Above(low, rest), OCTET)
  {
  }

  lemma AboveZero(low: Word, rest: Word)
    requires Low(low) && TopClear(rest, OCTET) && Above(low, rest) == ZERO
    ensures low == ZERO && rest == ZERO
  {
    var shifted := ShiftLeft(rest, OCTET);
    forall i | 0 <= i < 32 ensures low[i] == shifted[i] {
      assert !Xor(low, shifted)[i];
    }
    forall i | 0 <= i < 8 ensures !low[i] {
      assert !shifted[i];
    }
    forall i | 0 <= i < 24 ensures !rest[i] {
      assert shifted[i + 8] == rest[i];
    }
  }

  function Feed4(w0: Word, w1: Word, w2: Word, w3: Word): Word {
    Steps(Xor(Steps(Xor(Steps(Xor(Steps(w0, OCTET), w1), OCTET), w2), OCTET), w3), OCTET)
  }

  function Join4(w0: Word, w1: Word, w2: Word, w3: Word): Word {
    Above(w0, Above(w1, Above(w2, w3)))
  }

  /** Feeding `low` and then a word is feeding the two joined. */
  lemma FeedAbove(x: Word, low: Word, rest: Word)
    requires TopClear(rest, OCTET)
    ensures Xor(Steps(Xor(x, low), OCTET), rest) == Steps(Xor(x, Above(low, rest)), OCTET)
  {
    hide Steps, Xor, ShiftLeft, TopClear;
    Hoist(Xor(x, low), rest);
    XorAssociative(x, low, ShiftLeft(rest, OCTET));
  }

  /** Four byte rounds collapse to 32 steps on one 32-bit word. */
  lemma FourBytesAreOneWord(w0: Word, w1: Word, w2: Word, w3: Word)
    requires Low(w0) && Low(w1) && Low(w2) && Low(w3)
    ensures Feed4(w0, w1, w2, w3) == Steps(Join4(w0, w1, w2, w3), 3 * OCTET + OCTET)
  {
    hide Steps, Xor, ShiftLeft, Fill, TopClear, Low;
    LowIsClear(w3);
    var x1 := Steps(w0, OCTET);
    var x2 := Steps(Xor(x1, w1), OCTET);
    var j2 := Above(w2, w3);
    var j1 := Above(w1, j2);
    var j0 := Above(w0, j1);
    AboveClear(w2, w3, 16);
    AboveClear(w1, j2, 8);
    FeedAbove(x2, w2, w3);
    FeedAbove(x1, w1, j2);
    Hoist(w0, j1);
    StepsAdd(j0, OCTET, OCTET);
    StepsAdd(j0, 2 * OCTET, OCTET);
    StepsAdd(j0, 3 * OCTET, OCTET);
  }

  lemma Feed4Zero(w0: Word, w1: Word, w2: Word, w3: Word)
    requires Low(w0) && Low(w1) && Low(w2) && Low(w3)
    requires Feed4(w0, w1, w2, w3) == ZERO
    ensures w0 == ZERO && w1 == ZERO && w2 == ZERO && w3 == ZERO
  {
    hide Steps, Xor, ShiftLeft, Fill, Feed4, TopClear, Low;
    FourBytesAreOneWord(w0, w1, w2, w3);
    StepsZero(3 * OCTET + OCTET);
    StepsInjective(Join4(w0, w1, w2, w3), ZERO, 3 * OCTET + OCTET);
    LowIsClear(w3);
    AboveClear(w2, w3, 16);
    AboveClear(w1, Above(w2, w3), 8);
    AboveZero(w0, Above(w1, Above(w2, w3)));
    AboveZero(w1, Above(w2, w3));
    AboveZero(w2, w3);
  }

  /** The difference of byte `index`, or nothing past the end. */
  function DeltaAt(left: seq<byte>, right: seq<byte>, index: nat): Word
    requires |left| == |right|
  {
    if index < |left| then Xor(Promote(left[index]), Promote(right[index])) else ZERO
  }

  lemma DeltaLow(left: seq<byte>, right: seq<byte>, index: nat)
    requires |left| == |right|
    ensures Low(DeltaAt(left, right, index))
    ensures index < |left| ==> (DeltaAt(left, right, index) == ZERO <==> left[index] == right[index])
  {
    if index < |left| {
      PromoteLow(left[index]);
      PromoteLow(right[index]);
      XorZero(Promote(left[index]), Promote(right[index]));
      if Promote(left[index]) == Promote(right[index]) {
        PromoteInjective(left[index], right[index]);
      }
    }
  }

  /** One round of `Difference` on the suffixes that start at `index`. */
  lemma UnfoldOnce(delta: Word, left: seq<byte>, right: seq<byte>, index: nat)
    requires |left| == |right| && index < |left|
    ensures Difference(delta, left[index..], right[index..]) ==
            Difference(Steps(Xor(delta, DeltaAt(left, right, index)), OCTET), left[index + 1..], right[index + 1..])
  {
    hide Steps, Xor, Promote;
    assert left[index..][1..] == left[index + 1..] && right[index..][1..] == right[index + 1..];
  }

  /** The rounds from `index` to the fourth, with equal bytes past the end of the window. */
  function Rounds(delta: Word, left: seq<byte>, right: seq<byte>, index: nat): Word
    requires |left| == |right| && index <= 4
    decreases 4 - index
  {
    if index == 4 then delta
    else Rounds(Steps(Xor(delta, DeltaAt(left, right, index)), OCTET), left, right, index + 1)
  }

  lemma {:induction false} PaddedWindow(delta: Word, left: seq<byte>, right: seq<byte>, index: nat)
    requires |left| == |right| <= 4 && index <= 4
    requires if index <= |left| then Difference(delta, left[index..], right[index..]) == ZERO else delta == ZERO
    ensures Rounds(delta, left, right, index) == ZERO
    decreases 4 - index
  {
    hide Steps, Promote;
    if index < 4 {
      if index < |left| {
        UnfoldOnce(delta, left, right, index);
      } else {
        assert Xor(ZERO, ZERO) == ZERO;
        StepsZero(8);
      }
      PaddedWindow(Steps(Xor(delta, DeltaAt(left, right, index)), OCTET), left, right, index + 1);
    }
  }

  lemma RoundsAreFeed4(left: seq<byte>, right: seq<byte>)
    requires |left| == |right|
    ensures Rounds(ZERO, left, right, 0) ==
            Feed4(DeltaAt(left, right, 0), DeltaAt(left, right, 1), DeltaAt(left, right, 2), DeltaAt(left, right, 3))
  {
    hide Steps, Promote;
    var d0 := DeltaAt(left, right, 0);
    assert Xor(ZERO, d0) == d0;
    var r0 := Steps(d0, OCTET);
    var r1 := Steps(Xor(r0, DeltaAt(left, right, 1)), OCTET);
    var r2 := Steps(Xor(r1, DeltaAt(left, right, 2)), OCTET);
    var r3 := Steps(Xor(r2, DeltaAt(left, right, 3)), OCTET);
    assert Rounds(ZERO, left, right, 0) == Rounds(r0, left, right, 1);
    assert Rounds(r0, left, right, 1) == Rounds(r1, left, right, 2);
    assert Rounds(r1, left, right, 2) == Rounds(r2, left, right, 3);
    assert Rounds(r2, left, right, 3) == Rounds(r3, left, right, 4);
  }

  lemma DeltasZero(left: seq<byte>, right: seq<byte>)
    requires |left| == |right|
    requires Rounds(ZERO, left, right, 0) == ZERO
    ensures forall i | 0 <= i < 4 :: DeltaAt(left, right, i) == ZERO
  {
    hide *;
    RoundsAreFeed4(left, right);
    DeltaLow(left, right, 0);
    DeltaLow(left, right, 1);
    DeltaLow(left, right, 2);
    DeltaLow(left, right, 3);
    Feed4Zero(DeltaAt(left, right, 0), DeltaAt(left, right, 1), DeltaAt(left, right, 2), DeltaAt(left, right, 3));
  }

  lemma WindowDifference(left: seq<byte>, right: seq<byte>)
    requires |left| == |right| <= 4
    requires Difference(ZERO, left, right) == ZERO
    ensures left == right
  {
    hide Steps, Xor, Promote, Rounds, DeltaAt;
    assert left[0..] == left && right[0..] == right;
    PaddedWindow(ZERO, left, right, 0);
    DeltasZero(left, right);
    forall i | 0 <= i < |left| ensures left[i] == right[i] {
      DeltaLow(left, right, i);
    }
  }

  /** `left` and `right` agree except perhaps inside four consecutive bytes that start at `at`. */
  predicate WithinBurst(left: seq<byte>, right: seq<byte>, at: nat) {
    && |left| == |right|
    && at <= |left|
    && left[..at] == right[..at]
    && (at + 4 <= |left| ==> left[at + 4..] == right[at + 4..])
  }

  /** Any change confined to four consecutive bytes changes the checksum. */
  lemma BurstDetected(left: seq<byte>, right: seq<byte>, at: nat)
    requires WithinBurst(left, right, at)
    ensures Crc(left) == Crc(right) <==> left == right
  {
    hide Register, Xor, Not, Difference, Fill, Steps, Feed;
    if Crc(left) == Crc(right) {
      var end := if at + 4 <= |left| then at + 4 else |left|;
      var r := Register(ONES, left[..at]);
      var leftWindow, rightWindow := left[at..end], right[at..end];
      var tail := left[end..];
      assert left == left[..at] + (leftWindow + tail);
      assert right == right[..at] + (rightWindow + tail);
      RegisterAppend(ONES, left[..at], leftWindow + tail);
      RegisterAppend(ONES, right[..at], rightWindow + tail);
      RegisterAppend(r, leftWindow, tail);
      RegisterAppend(r, rightWindow, tail);
      NotInjective(Register(ONES, left), Register(ONES, right));
      EqualTail(Register(r, leftWindow), Register(r, rightWindow), tail);
      RegistersDiffer(r, r, leftWindow, rightWindow);
      XorZero(r, r);
      XorZero(Register(r, leftWindow), Register(r, rightWindow));
      WindowDifference(leftWindow, rightWindow);
    }
  }

  lemma NotInjective(x: Word, y: Word)
    requires Not(x) == Not(y)
    ensures x == y
  {
    forall i | 0 <= i < 32 ensures x[i] == y[i] {
      assert Not(x)[i] == Not(y)[i];
    }
  }
}
