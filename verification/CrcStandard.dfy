/** The checksum is the CRC-32 of section 8 of RFC 1952: its check value, and the residue it leaves behind. */
module CrcStandard {
  import opened Bytes
  import opened Texts
  import opened Crc32

  // ----- The register in a machine word -----

  function Half(x: bv32): bv32 { x >> 1 }
  predicate Odd(x: bv32) { x & 1 == 1 }
  function Mix(x: bv32, y: bv32): bv32 { x ^ y }

  /** The lowest `count` bits, least significant first. */
  function Bits(x: bv32, count: nat): (bits: seq<bool>)
    ensures |bits| == count
  {
    if count == 0 then [] else [Odd(x)] + Bits(Half(x), count - 1)
  }

  function Shifted(x: bv32, count: nat): bv32 {
    if count == 0 then x else Shifted(Half(x), count - 1)
  }

  lemma MixIsBitwise(x: bv32, y: bv32)
    ensures Odd(Mix(x, y)) <==> Odd(x) != Odd(y)
    ensures Half(Mix(x, y)) == Mix(Half(x), Half(y))
  {
  }

  lemma {:induction false} MixBits(x: bv32, y: bv32, count: nat)
    ensures forall i | 0 <= i < count :: Bits(Mix(x, y), count)[i] == (Bits(x, count)[i] != Bits(y, count)[i])
    decreases count
  {
    hide Odd, Half, Mix;
    if count > 0 {
      MixIsBitwise(x, y);
      MixBits(Half(x), Half(y), count - 1);
    }
  }

  lemma {:induction false} SplitBits(x: bv32, first: nat, second: nat)
    ensures Bits(x, first + second) == Bits(x, first) + Bits(Shifted(x, first), second)
    decreases first
  {
    hide Odd, Half;
    if first > 0 {
      SplitBits(Half(x), first - 1, second);
    }
  }

  lemma {:induction false} ShiftedAdd(x: bv32, first: nat, second: nat)
    ensures Shifted(x, first + second) == Shifted(Shifted(x, first), second)
    decreases first
  {
    hide Half;
    if first > 0 { ShiftedAdd(Half(x), first - 1, second); }
  }

  function Sixteenth(x: bv32): bv32 { x >> 4 }

  lemma FourHalves(x: bv32)
    ensures Half(Half(Half(Half(x)))) == Sixteenth(x)
  {
  }

  lemma EightDigits(x: bv32)
    ensures Sixteenth(Sixteenth(Sixteenth(Sixteenth(Sixteenth(Sixteenth(Sixteenth(Sixteenth(x)))))))) == 0
  {
  }

  lemma ShiftedByFour(x: bv32)
    ensures Shifted(x, 4) == Sixteenth(x)
  {
    hide Half, Sixteenth;
    FourHalves(x);
    ShiftedAdd(x, 2, 2);
    assert Shifted(Half(x), 1) == Shifted(Half(Half(x)), 0);
    assert Shifted(Half(Half(Half(x))), 1) == Shifted(Half(Half(Half(Half(x)))), 0);
    assert Shifted(Half(Half(x)), 2) == Shifted(Half(Half(Half(x))), 1);
  }

  lemma NothingLeft(x: bv32)
    ensures Shifted(x, 32) == 0
  {
    hide Half, Sixteenth, Shifted;
    EightDigits(x);
    var x1 := Sixteenth(x);
    var x2 := Sixteenth(x1);
    var x3 := Sixteenth(x2);
    var x4 := Sixteenth(x3);
    var x5 := Sixteenth(x4);
    var x6 := Sixteenth(x5);
    var x7 := Sixteenth(x6);
    ShiftedByFour(x);
    ShiftedByFour(x1);
    ShiftedByFour(x2);
    ShiftedByFour(x3);
    ShiftedByFour(x4);
    ShiftedByFour(x5);
    ShiftedByFour(x6);
    ShiftedByFour(x7);
    ShiftedAdd(x, 4, 28);
    ShiftedAdd(x1, 4, 24);
    ShiftedAdd(x2, 4, 20);
    ShiftedAdd(x3, 4, 16);
    ShiftedAdd(x4, 4, 12);
    ShiftedAdd(x5, 4, 8);
    ShiftedAdd(x6, 4, 4);
  }

  // ----- Its value -----

  /** The lowest hexadecimal digit. */
  function Digit(x: bv32): nat {
    (if x & 1 == 1 then 1 else 0) + (if x & 2 == 2 then 2 else 0) + (if x & 4 == 4 then 4 else 0) + (if x & 8 == 8 then 8 else 0)
  }

  lemma FourBits(x: bv32)
    ensures Odd(Half(x)) <==> x & 2 == 2
    ensures Odd(Half(Half(x))) <==> x & 4 == 4
    ensures Odd(Half(Half(Half(x)))) <==> x & 8 == 8
  {
  }

  lemma DigitOfBits(x: bv32, count: nat)
    ensures Value(Bits(x, 4 + count)) == Digit(x) + 16 * Value(Bits(Sixteenth(x), count))
  {
    hide Odd, Half, Sixteenth, Digit, Bits, Value, Pow2;
    var x1 := Half(x);
    var x2 := Half(x1);
    var x3 := Half(x2);
    DigitIs(x);
    FourHalves(x);
    BitsAre(x, 3 + count);
    BitsAre(x1, 2 + count);
    BitsAre(x2, 1 + count);
    BitsAre(x3, count);
  }

  lemma DigitIs(x: bv32)
    ensures Digit(x) == (if Odd(x) then 1 else 0) + 2 * ((if Odd(Half(x)) then 1 else 0) + 2 * (
      (if Odd(Half(Half(x))) then 1 else 0) + 2 * (if Odd(Half(Half(Half(x)))) then 1 else 0)))
  {
    hide Half;
    FourBits(x);
  }

  lemma BitsAre(x: bv32, count: nat)
    ensures Value(Bits(x, 1 + count)) == (if Odd(x) then 1 else 0) + 2 * Value(Bits(Half(x), count))
  {
    hide Odd, Half;
    assert Bits(x, 1 + count)[1..] == Bits(Half(x), count);
  }

  /** What `count` hexadecimal digits are worth, the lowest first. */
  function Number(x: bv32, count: nat): nat
    decreases count
  {
    if count == 0 then 0 else Digit(x) + 16 * Number(Sixteenth(x), count - 1)
  }

  lemma {:induction false} ValueOfDigits(x: bv32, count: nat)
    ensures Value(Bits(x, 4 * count)) == Number(x, count)
    decreases count
  {
    hide Sixteenth, Digit, Pow2;
    if count > 0 {
      DigitOfBits(x, 4 * (count - 1));
      ValueOfDigits(Sixteenth(x), count - 1);
    }
  }

  lemma ValueOfWord(x: bv32)
    ensures Value(Bits(x, 32)) == Number(x, 8)
  {
    hide Number;
    ValueOfDigits(x, 8);
  }

  lemma NumberUnfold(x: bv32, count: nat, digit: nat, next: bv32, rest: nat)
    requires Digit(x) == digit && Sixteenth(x) == next && Number(next, count) == rest
    ensures Number(x, count + 1) == digit + 16 * rest
  {
  }

  // ----- Steps in a machine word -----

  /** One round of the loop as the firmware writes it. */
  function StepOf(x: bv32): bv32 {
    Mix(Half(x), if Odd(x) then 0xedb8_8320 else 0)
  }

  function StepsOf(x: bv32, count: nat): bv32
    decreases count
  {
    if count == 0 then x else StepsOf(StepOf(x), count - 1)
  }

  lemma HalfBits(x: bv32)
    ensures Bits(Half(x), 32) == ShiftRight(Bits(x, 32))
  {
    hide Half, Odd, Bits;
    SplitBits(Half(x), 31, 1);
    NothingLeft(x);
    assert Shifted(Half(x), 31) == 0;
    ZeroBits(1);
    assert Bits(0, 1) == [false];
    BitsUnfold(x, 31);
  }

  lemma ZeroIsEven()
    ensures !Odd(0) && Half(0) == 0
  {
  }

  lemma {:induction false} ZeroBits(count: nat)
    ensures forall i | 0 <= i < count :: !Bits(0, count)[i]
  {
    hide Odd, Half;
    ZeroIsEven();
    if count > 0 { ZeroBits(count - 1); }
  }

  lemma MaskBits(odd: bool)
    ensures Mask(odd) == Bits(if odd then 0xedb8_8320 else 0, 32)
  {
    hide Bits;
    ZeroBits(32);
    if odd { PolynomialBits(); }
  }

  /** The bits of the lowest hexadecimal digit. */
  function Lowest(x: bv32): (bits: seq<bool>)
    ensures |bits| == 4
  {
    [x & 1 == 1, x & 2 == 2, x & 4 == 4, x & 8 == 8]
  }

  lemma LowestBits(x: bv32)
    ensures Lowest(x) == [Odd(x), Odd(Half(x)), Odd(Half(Half(x))), Odd(Half(Half(Half(x))))]
  {
    FourBits(x);
  }

  lemma DigitBits(x: bv32, count: nat)
    ensures Bits(x, 4 + count) == Lowest(x) + Bits(Sixteenth(x), count)
  {
    hide Odd, Half, Sixteenth, Lowest, Bits;
    LowestBits(x);
    FourHalves(x);
    BitsUnfold(x, 3 + count);
    BitsUnfold(Half(x), 2 + count);
    BitsUnfold(Half(Half(x)), 1 + count);
    BitsUnfold(Half(Half(Half(x))), count);
    Four(Odd(x), Odd(Half(x)), Odd(Half(Half(x))), Odd(Half(Half(Half(x)))), Bits(Sixteenth(x), count));
  }

  lemma BitsUnfold(x: bv32, count: nat)
    ensures Bits(x, 1 + count) == [Odd(x)] + Bits(Half(x), count)
  {
    hide Odd, Half;
  }

  lemma Four<T>(a: T, b: T, c: T, d: T, rest: seq<T>)
    ensures [a] + ([b] + ([c] + ([d] + rest))) == [a, b, c, d] + rest
  {
  }

  lemma TailBits(w: Word, at: nat, x: bv32, next: bv32)
    requires at <= 28 && w[at..at + 4] == Lowest(x) && Sixteenth(x) == next && w[at + 4..] == Bits(next, 28 - at)
    ensures w[at..] == Bits(x, 32 - at)
  {
    hide Bits, Sixteenth, Lowest;
    DigitBits(x, 28 - at);
    assert w[at..] == w[at..at + 4] + w[at + 4..];
  }

  lemma LowestDigits()
    ensures Lowest(0xedb8_8320) == [false, false, false, false]
    ensures Lowest(0xedb_8832) == [false, true, false, false]
    ensures Lowest(0xed_b883) == [true, true, false, false]
    ensures Lowest(0xe_db88) == Lowest(0xedb8) == [false, false, false, true]
    ensures Lowest(0xedb) == [true, true, false, true]
    ensures Lowest(0xed) == [true, false, true, true]
    ensures Lowest(0xe) == [false, true, true, true]
  {
  }

  lemma SpelledBits(w: Word)
    requires w[0..4] == [false, false, false, false] && w[4..8] == [false, true, false, false]
    requires w[8..12] == [true, true, false, false] && w[12..16] == w[16..20] == [false, false, false, true]
    requires w[20..24] == [true, true, false, true] && w[24..28] == [true, false, true, true]
    requires w[28..32] == [false, true, true, true]
    ensures w == Bits(0xedb8_8320, 32)
  {
    hide Bits, Lowest;
    LowestDigits();
    assert w[32..] == Bits(0, 0);
    TailBits(w, 28, 0xe, 0);
    TailBits(w, 24, 0xed, 0xe);
    TailBits(w, 20, 0xedb, 0xed);
    TailBits(w, 16, 0xedb8, 0xedb);
    TailBits(w, 12, 0xe_db88, 0xedb8);
    TailBits(w, 8, 0xed_b883, 0xe_db88);
    TailBits(w, 4, 0xedb_8832, 0xed_b883);
    TailBits(w, 0, 0xedb8_8320, 0xedb_8832);
    assert w[0..] == w;
  }

  lemma FourOf(w: Word, at: nat)
    requires at <= 28
    ensures w[at..at + 4] == [w[at], w[at + 1], w[at + 2], w[at + 3]]
  {
  }

  lemma PolynomialLow()
    ensures POLYNOMIAL[0..4] == [false, false, false, false] && POLYNOMIAL[4..8] == [false, true, false, false]
    ensures POLYNOMIAL[8..12] == [true, true, false, false]
  {
    FourOf(POLYNOMIAL, 0);
    FourOf(POLYNOMIAL, 4);
    FourOf(POLYNOMIAL, 8);
  }

  lemma PolynomialMiddle()
    ensures POLYNOMIAL[12..16] == POLYNOMIAL[16..20] == [false, false, false, true]
  {
    FourOf(POLYNOMIAL, 12);
    FourOf(POLYNOMIAL, 16);
  }

  lemma PolynomialHigh()
    ensures POLYNOMIAL[20..24] == [true, true, false, true] && POLYNOMIAL[24..28] == [true, false, true, true]
    ensures POLYNOMIAL[28..32] == [false, true, true, true]
  {
    FourOf(POLYNOMIAL, 20);
    FourOf(POLYNOMIAL, 24);
    FourOf(POLYNOMIAL, 28);
  }

  lemma PolynomialBits()
    ensures POLYNOMIAL == Bits(0xedb8_8320, 32)
  {
    hide Bits;
    PolynomialLow();
    PolynomialMiddle();
    PolynomialHigh();
    SpelledBits(POLYNOMIAL);
  }

  lemma StepBits(x: bv32)
    ensures Step(Bits(x, 32)) == Bits(StepOf(x), 32)
  {
    hide Odd, Half, Mix, Mask, Fill;
    var mask := if Odd(x) then 0xedb8_8320 else 0;
    HalfBits(x);
    MaskBits(Odd(x));
    MixBits(Half(x), mask, 32);
  }

  lemma {:induction false} StepsBits(x: bv32, count: nat)
    ensures Steps(Bits(x, 32), count) == Bits(StepsOf(x, count), 32)
    decreases count
  {
    hide Bits, Step, StepOf;
    if count > 0 {
      StepBits(x);
      StepsBits(StepOf(x), count - 1);
    }
  }

  lemma {:induction false} StepsOfAdd(x: bv32, first: nat, second: nat)
    ensures StepsOf(x, first + second) == StepsOf(StepsOf(x, first), second)
    decreases first
  {
    hide StepOf;
    if first > 0 { StepsOfAdd(StepOf(x), first - 1, second); }
  }

  // ----- The check value -----

  lemma {:induction false} FilledValue(count: nat)
    ensures Value(Fill(count, true)) == Pow2(count) - 1
  {
    if count > 0 {
      assert Fill(count, true)[1..] == Fill(count - 1, true);
      FilledValue(count - 1);
    }
  }

  lemma SpelledOnes()
    ensures Value(Bits(0xffff_ffff, 32)) == 0xffff_ffff
  {
    hide Bits, Value;
    ValueOfWord(0xffff_ffff);
    assert Number(0xffff, 4) == 0xffff;
    assert Number(0xff_ffff, 6) == 0xff_ffff;
    assert Number(0xffff_ffff, 8) == 0xffff_ffff;
  }

  lemma OnesAreBits()
    ensures ONES == Bits(0xffff_ffff, 32)
  {
    hide Bits;
    Pow2Of32();
    FilledValue(32);
    SpelledOnes();
    ValueInjective(ONES, Bits(0xffff_ffff, 32));
  }

  /** One byte in a machine word. */
  lemma FeedBits(x: bv32, y: bv32, b: byte, z: bv32)
    requires Value(Bits(y, 32)) == b && StepsOf(Mix(x, y), 8) == z
    ensures Feed(Bits(x, 32), b) == Bits(z, 32)
  {
    hide Bits, StepsOf, Mix, Steps;
    Pow2Of32();
    ValueOfBits(b, 32);
    ValueInjective(Promote(b), Bits(y, 32));
    MixBits(x, y, 32);
    assert Xor(Bits(x, 32), Promote(b)) == Bits(Mix(x, y), 32);
    StepsBits(Mix(x, y), 8);
  }

  lemma ByteValue(y: bv32)
    requires Sixteenth(Sixteenth(y)) == 0
    ensures Value(Bits(y, 32)) == Digit(y) + 16 * Digit(Sixteenth(y))
  {
    hide Digit, Bits;
    ValueOfWord(y);
    ZeroNumber(6);
    assert Number(y, 8) == Digit(y) + 16 * Number(Sixteenth(y), 7);
    assert Number(Sixteenth(y), 7) == Digit(Sixteenth(y)) + 16 * Number(0, 6);
  }

  lemma {:induction false} ZeroNumber(count: nat)
    ensures Number(0, count) == 0
    decreases count
  {
    if count > 0 {
      assert Digit(0) == 0 && Sixteenth(0) == 0;
      ZeroNumber(count - 1);
    }
  }

  lemma FeedDigit(x: bv32, y: bv32, b: byte, z: bv32)
    requires Sixteenth(Sixteenth(y)) == 0 && Digit(y) + 16 * Digit(Sixteenth(y)) == b && StepsOf(Mix(x, y), 8) == z
    ensures Feed(Bits(x, 32), b) == Bits(z, 32)
  {
    hide *;
    ByteValue(y);
    FeedBits(x, y, b, z);
  }

  lemma NotBits(x: bv32)
    ensures Not(Bits(x, 32)) == Bits(Mix(x, 0xffff_ffff), 32)
  {
    hide Bits, Mix;
    MixBits(x, 0xffff_ffff, 32);
    OnesAreBits();
  }

  lemma OneByte(crc: Word, b: byte)
    ensures Register(crc, [b]) == Feed(crc, b)
  {
    hide Feed;
    assert Register(Feed(crc, b), []) == Feed(crc, b);
    assert [b][1..] == [];
  }

  lemma Snoc(crc: Word, data: seq<byte>, b: byte)
    ensures Register(crc, data + [b]) == Feed(Register(crc, data), b)
  {
    hide *;
    RegisterAppend(crc, data, [b]);
    OneByte(Register(crc, data), b);
  }

  lemma Digits123()
    ensures Register(Bits(0xffff_ffff, 32), [0x31, 0x32, 0x33]) == Bits(0x77b7_9c2d, 32)
  {
    hide Bits, Register, Feed, Steps, Number, Value;
    var x := Bits(0xffff_ffff, 32);
    FeedDigit(0xffff_ffff, 0x31, 0x31, 0x7c23_1048);
    FeedDigit(0x7c23_1048, 0x32, 0x32, 0xb0ac_bb32);
    FeedDigit(0xb0ac_bb32, 0x33, 0x33, 0x77b7_9c2d);
    OneByte(x, 0x31);
    Snoc(x, [0x31], 0x32);
    Snoc(x, [0x31] + [0x32], 0x33);
    assert [0x31] + [0x32] + [0x33] == [0x31, 0x32, 0x33];
  }

  lemma Digits456()
    ensures Register(Bits(0x77b7_9c2d, 32), [0x34, 0x35, 0x36]) == Bits(0xf68d_2c9e, 32)
  {
    hide Bits, Register, Feed, Steps, Number, Value;
    var x := Bits(0x77b7_9c2d, 32);
    FeedDigit(0x77b7_9c2d, 0x34, 0x34, 0x641c_1f5c);
    FeedDigit(0x641c_1f5c, 0x35, 0x35, 0x340a_c5e3);
    FeedDigit(0x340a_c5e3, 0x36, 0x36, 0xf68d_2c9e);
    OneByte(x, 0x34);
    Snoc(x, [0x34], 0x35);
    Snoc(x, [0x34] + [0x35], 0x36);
    assert [0x34] + [0x35] + [0x36] == [0x34, 0x35, 0x36];
  }

  lemma Digits789()
    ensures Register(Bits(0xf68d_2c9e, 32), [0x37, 0x38, 0x39]) == Bits(0x340b_c6d9, 32)
  {
    hide Bits, Register, Feed, Steps, Number, Value;
    var x := Bits(0xf68d_2c9e, 32);
    FeedDigit(0xf68d_2c9e, 0x37, 0x37, 0xaffc_9660);
    FeedDigit(0xaffc_9660, 0x38, 0x38, 0x651f_2550);
    FeedDigit(0x651f_2550, 0x39, 0x39, 0x340b_c6d9);
    OneByte(x, 0x37);
    Snoc(x, [0x37], 0x38);
    Snoc(x, [0x37] + [0x38], 0x39);
    assert [0x37] + [0x38] + [0x39] == [0x37, 0x38, 0x39];
  }

  lemma SpelledCheck()
    ensures Value(Bits(0xcbf4_3926, 32)) == 0xcbf4_3926
  {
    hide Bits, Value;
    ValueOfWord(0xcbf4_3926);
    assert Number(0xcbf4, 4) == 0xcbf4;
    assert Number(0xcb_f439, 6) == 0xcb_f439;
    assert Number(0xcbf4_3926, 8) == 0xcbf4_3926;
  }

  /** The check value of this CRC: that of the nine digits. */
  lemma CheckValue()
    ensures ToU32(Crc(Ascii("123456789"))) == 0xcbf4_3926
  {
    hide Bits, Register, Feed, Steps, Value;
    var a, b, c := [0x31, 0x32, 0x33], [0x34, 0x35, 0x36], [0x37, 0x38, 0x39];
    assert Ascii("123456789") == a + b + c;
    OnesAreBits();
    Digits123();
    Digits456();
    Digits789();
    RegisterAppend(ONES, a, b);
    RegisterAppend(ONES, a + b, c);
    NotBits(0x340b_c6d9);
    assert Mix(0x340b_c6d9, 0xffff_ffff) == 0xcbf4_3926;
    SpelledCheck();
  }

  // ----- The residue -----

  lemma PowersDouble(n: nat)
    ensures Pow2(0) == 1 && (n > 0 ==> Pow2(n) == 2 * Pow2(n - 1))
  {
  }

  lemma Doubled(x: nat, y: nat)
    ensures 2 * x * y == 2 * (x * y)
  {
  }

  lemma {:induction false} ValueAppend(low: seq<bool>, high: seq<bool>)
    ensures Value(low + high) == Value(low) + Pow2(|low|) * Value(high)
    decreases |low|
  {
    hide Pow2;
    assert Pow2(0) == 1 && (|low| > 0 ==> Pow2(|low|) == 2 * Pow2(|low| - 1)) by { PowersDouble(|low|); }
    var all := low + high;
    if low == [] {
      assert all == high;
    } else {
      assert all[0] == low[0] && all[1..] == low[1..] + high;
      ValueAppend(low[1..], high);
      Doubled(Pow2(|low| - 1), Value(high));
    }
  }

  lemma {:induction false} BitsOfValue(bits: seq<bool>, width: nat)
    requires |bits| <= width
    ensures forall i | 0 <= i < |bits| :: ToBits(Value(bits), width)[i] == bits[i]
  {
    hide Pow2;
    if bits != [] {
      BitsOfValue(bits[1..], width - 1);
      var rest := ToBits(Value(bits[1..]), width - 1);
      assert Value(bits) / 2 == Value(bits[1..]);
      assert ToBits(Value(bits), width) == [bits[0]] + rest;
    }
  }

  /** The bytes that the header stores are the bits of the register, eight at a time. */
  lemma StoredBytes(w: Word)
    ensures PutU32(ToU32(w)) == [Value(w[0..8]), Value(w[8..16]), Value(w[16..24]), Value(w[24..32])]
  {
    hide Value, Pow2;
    var b0, b1, b2, b3 := w[0..8], w[8..16], w[16..24], w[24..32];
    assert Pow2(8) == 0x100 by { EightBits(); }
    assert w == b0 + (b1 + (b2 + b3));
    ValueAppend(b0, b1 + (b2 + b3));
    ValueAppend(b1, b2 + b3);
    ValueAppend(b2, b3);
    FourPlaces(ToU32(w), Value(b0), Value(b1), Value(b2), Value(b3));
  }

  lemma FourPlaces(n: u32, v0: byte, v1: byte, v2: byte, v3: byte)
    requires n == v0 + 0x100 * (v1 + 0x100 * (v2 + 0x100 * v3))
    ensures PutU32(n) == [v0, v1, v2, v3]
  {
    assert n / 0x100 == v1 + 0x100 * (v2 + 0x100 * v3);
    assert n / 0x1_0000 == v2 + 0x100 * v3;
    assert n / 0x100_0000 == v3;
  }

  lemma EightBits()
    ensures Pow2(8) == 0x100
  {
  }

  /** A byte of the register, promoted again. */
  lemma PromotedBits(bits: seq<bool>, b: byte)
    requires |bits| == 8 && Value(bits) == b
    ensures Low(Promote(b)) && forall i | 0 <= i < 8 :: Promote(b)[i] == bits[i]
  {
    hide Value, Low;
    BitsOfValue(bits, 32);
    PromoteLow(b);
  }

  lemma JoinedAgain(w: Word, b0: byte, b1: byte, b2: byte, b3: byte)
    requires b0 == Value(w[0..8]) && b1 == Value(w[8..16]) && b2 == Value(w[16..24]) && b3 == Value(w[24..32])
    ensures Join4(Promote(b0), Promote(b1), Promote(b2), Promote(b3)) == w
    ensures Low(Promote(b0)) && Low(Promote(b1)) && Low(Promote(b2)) && Low(Promote(b3))
  {
    hide Value, Promote;
    PromotedBits(w[0..8], b0);
    PromotedBits(w[8..16], b1);
    PromotedBits(w[16..24], b2);
    PromotedBits(w[24..32], b3);
    var p0, p1, p2, p3 := Promote(b0), Promote(b1), Promote(b2), Promote(b3);
    JoinBits(p0, p1, p2, p3, w);
  }

  lemma JoinBits(p0: Word, p1: Word, p2: Word, p3: Word, w: Word)
    requires Low(p0) && Low(p1) && Low(p2) && Low(p3)
    requires forall i | 0 <= i < 8 :: p0[i] == w[0..8][i] && p1[i] == w[8..16][i] && p2[i] == w[16..24][i] && p3[i] == w[24..32][i]
    ensures Join4(p0, p1, p2, p3) == w
  {
    var j2 := Above(p2, p3);
    var j1 := Above(p1, j2);
    var j0 := Above(p0, j1);
    assert forall i | 0 <= i < 8 :: p0[i] == w[i] && p1[i] == w[i + 8] && p2[i] == w[i + 16] && p3[i] == w[i + 24];
    assert forall i | 0 <= i < 32 :: j2[i] == (p2[i] != (i >= 8 && p3[i - 8]));
    assert forall i | 0 <= i < 16 :: j2[i] == w[i + 16];
    assert forall i | 0 <= i < 32 :: j1[i] == (p1[i] != (i >= 8 && j2[i - 8]));
    assert forall i | 0 <= i < 24 :: j1[i] == w[i + 8];
    assert forall i | 0 <= i < 32 :: j0[i] == (p0[i] != (i >= 8 && j1[i - 8]));
  }

  /** Feeding four bytes is mixing in the word they make and taking thirty-two steps. */
  lemma FourBytesMixed(x: Word, p0: Word, p1: Word, p2: Word, p3: Word)
    requires Low(p0) && Low(p1) && Low(p2) && Low(p3)
    ensures Steps(Xor(Steps(Xor(Steps(Xor(Steps(Xor(x, p0), 8), p1), 8), p2), 8), p3), 8) == Steps(Xor(x, Join4(p0, p1, p2, p3)), 32)
  {
    hide Steps, Xor, ShiftLeft, Fill, TopClear, Low, Above;
    LowIsClear(p3);
    var x1 := Steps(Xor(x, p0), 8);
    var x2 := Steps(Xor(x1, p1), 8);
    var j2 := Above(p2, p3);
    var j1 := Above(p1, j2);
    AboveClear(p2, p3, 16);
    AboveClear(p1, j2, 8);
    FeedAbove(x2, p2, p3);
    FeedAbove(x1, p1, j2);
    FeedAbove(x, p0, j1);
    var j0 := Xor(x, Above(p0, j1));
    StepsAdd(j0, 8, 8);
    StepsAdd(j0, 16, 8);
    StepsAdd(j0, 24, 8);
  }

  lemma RegisterFour(x: Word, b0: byte, b1: byte, b2: byte, b3: byte)
    ensures Register(x, [b0, b1, b2, b3]) == Feed(Feed(Feed(Feed(x, b0), b1), b2), b3)
  {
    hide Feed, Register;
    OneByte(x, b0);
    Snoc(x, [b0], b1);
    Snoc(x, [b0] + [b1], b2);
    Snoc(x, [b0] + [b1] + [b2], b3);
    assert [b0] + [b1] + [b2] + [b3] == [b0, b1, b2, b3];
  }

  lemma EightSteps()
    ensures StepsOf(0xffff_ffff, 8) == 0x2dfd_1072
  {
  }

  lemma SixteenSteps()
    ensures StepsOf(0x2dfd_1072, 8) == 0xbe26_ed00
  {
  }

  lemma TwentyFourSteps()
    ensures StepsOf(0xbe26_ed00, 8) == 0x00be_26ed
  {
  }

  lemma AllSteps()
    ensures StepsOf(0x00be_26ed, 8) == 0xdebb_20e3
  {
  }

  lemma ThirtyTwoSteps()
    ensures Steps(ONES, 32) == Bits(0xdebb_20e3, 32)
  {
    hide Bits, Steps, StepsOf;
    OnesAreBits();
    StepsBits(0xffff_ffff, 32);
    EightSteps();
    SixteenSteps();
    TwentyFourSteps();
    AllSteps();
    StepsOfAdd(0xffff_ffff, 8, 24);
    StepsOfAdd(0x2dfd_1072, 8, 16);
    StepsOfAdd(0xbe26_ed00, 8, 8);
  }

  lemma Complement(x: Word)
    ensures Xor(x, Not(x)) == ONES
  {
  }

  lemma SpelledResidue()
    ensures Value(Bits(0xdebb_20e3, 32)) == 0xdebb_20e3
  {
    hide Bits, Value;
    ValueOfWord(0xdebb_20e3);
    assert Number(0xdebb, 4) == 0xdebb;
    assert Number(0xde_bb20, 6) == 0xde_bb20;
    assert Number(0xdebb_20e3, 8) == 0xdebb_20e3;
  }

  /** Whatever was checked, its bytes followed by the stored checksum always leave the same register behind. */
  lemma Residue(data: seq<byte>)
    ensures ToU32(Register(ONES, data + PutU32(ToU32(Crc(data))))) == 0xdebb_20e3
  {
    hide Bits, Register, Steps, Value, Promote, Xor, Not, Low, Join4, PutU32, Fill;
    var r := Register(ONES, data);
    var w := Not(r);
    var stored := PutU32(ToU32(w));
    StoredBytes(w);
    var b0, b1, b2, b3 := stored[0], stored[1], stored[2], stored[3];
    assert stored == [b0, b1, b2, b3];
    RegisterAppend(ONES, data, stored);
    RegisterFour(r, b0, b1, b2, b3);
    JoinedAgain(w, b0, b1, b2, b3);
    FourBytesMixed(r, Promote(b0), Promote(b1), Promote(b2), Promote(b3));
    Complement(r);
    ThirtyTwoSteps();
    SpelledResidue();
  }
}
