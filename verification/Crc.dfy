/** The checksum of a message block: sixteen bits, kept by bit-serial division in the specification
    and by one shift-and-xor step a byte in the program. */
module Crc {
  import opened Vlq

  // ------------------------------------------------------------ numbers and their bits

  function FromBits(b0: bool, b1: bool, b2: bool, b3: bool, b4: bool, b5: bool, b6: bool, b7: bool): bv16 {
    (if b0 then 0x01 else 0) | (if b1 then 0x02 else 0) | (if b2 then 0x04 else 0) | (if b3 then 0x08 else 0)
    | (if b4 then 0x10 else 0) | (if b5 then 0x20 else 0) | (if b6 then 0x40 else 0) | (if b7 then 0x80 else 0)
  }

  function Shifted(b: Byte, k: nat): Byte
    requires k < 8
  {
    match k case 0 => b case 1 => b / 2 case 2 => b / 4 case 3 => b / 8
            case 4 => b / 16 case 5 => b / 32 case 6 => b / 64 case 7 => b / 128
  }

  /** Bit `k` of a byte. */
  predicate Binary(b: Byte, k: nat)
    requires k < 8
  {
    Shifted(b, k) % 2 == 1
  }

  /** The checksum register. */
  datatype Register = Register(bits: bv16)

  /** A byte as a 16-bit word. */
  function WordOf(b: Byte): Register {
    Register(FromBits(Binary(b, 0), Binary(b, 1), Binary(b, 2), Binary(b, 3),
                      Binary(b, 4), Binary(b, 5), Binary(b, 6), Binary(b, 7)))
  }

  predicate Small(c: Register) {
    c.bits & !0xff == 0
  }

  function One(b: bool): (n: nat)
    ensures n <= 1
  {
    if b then 1 else 0
  }

  function FromBinary(b0: bool, b1: bool, b2: bool, b3: bool, b4: bool, b5: bool, b6: bool, b7: bool): Byte {
    One(b0) + 2 * (One(b1) + 2 * (One(b2) + 2 * (One(b3)
    + 2 * (One(b4) + 2 * (One(b5) + 2 * (One(b6) + 2 * One(b7)))))))
  }

  lemma {:induction false} ShiftedHalf(b: Byte, k: nat)
    requires k < 7
    ensures Shifted(b, k + 1) == Shifted(b, k) / 2
  {
    if k == 0 {
    } else if k == 1 {
      assert b / 4 == b / 2 / 2;
    } else if k == 2 {
      assert b / 8 == b / 4 / 2;
    } else if k == 3 {
      assert b / 16 == b / 8 / 2;
    } else if k == 4 {
      assert b / 32 == b / 16 / 2;
    } else if k == 5 {
      assert b / 64 == b / 32 / 2;
    } else {
      assert b / 128 == b / 64 / 2;
    }
  }

  lemma {:induction false} BinaryHalf(b: Byte, k: nat)
    requires k < 7
    ensures Shifted(b, k) == One(Binary(b, k)) + 2 * Shifted(b, k + 1)
  {
    ShiftedHalf(b, k);
    hide Shifted;
  }

  lemma {:induction false} BinaryEnds(b: Byte)
    ensures Shifted(b, 0) == b && Shifted(b, 7) == One(Binary(b, 7))
  {
  }

  lemma {:induction false} SumOfHighBits(b: Byte)
    ensures Shifted(b, 4) ==
            One(Binary(b, 4)) + 2 * (One(Binary(b, 5)) + 2 * (One(Binary(b, 6)) + 2 * One(Binary(b, 7))))
  {
    hide One, Binary, Shifted;
    BinaryEnds(b);
    BinaryHalf(b, 4);
    BinaryHalf(b, 5);
    BinaryHalf(b, 6);
  }

  lemma {:induction false} SumOfBits(b: Byte)
    ensures b == FromBinary(Binary(b, 0), Binary(b, 1), Binary(b, 2), Binary(b, 3),
                            Binary(b, 4), Binary(b, 5), Binary(b, 6), Binary(b, 7))
  {
    hide One, Binary, Shifted;
    BinaryEnds(b);
    BinaryHalf(b, 0);
    BinaryHalf(b, 1);
    BinaryHalf(b, 2);
    BinaryHalf(b, 3);
    SumOfHighBits(b);
  }

  lemma {:induction false} FromBitsInjective(a0: bool, a1: bool, a2: bool, a3: bool, a4: bool, a5: bool, a6: bool,
      a7: bool, b0: bool, b1: bool, b2: bool, b3: bool, b4: bool, b5: bool, b6: bool, b7: bool)
    requires FromBits(a0, a1, a2, a3, a4, a5, a6, a7) == FromBits(b0, b1, b2, b3, b4, b5, b6, b7)
    ensures a0 == b0 && a1 == b1 && a2 == b2 && a3 == b3 && a4 == b4 && a5 == b5 && a6 == b6 && a7 == b7
  {
  }

  /** The bytes of a message are told apart by their words. */
  lemma {:induction false} WordInjective(a: Byte, b: Byte)
    requires WordOf(a) == WordOf(b)
    ensures a == b
  {
    hide FromBits, Binary, FromBinary;
    FromBitsInjective(Binary(a, 0), Binary(a, 1), Binary(a, 2), Binary(a, 3),
                      Binary(a, 4), Binary(a, 5), Binary(a, 6), Binary(a, 7),
                      Binary(b, 0), Binary(b, 1), Binary(b, 2), Binary(b, 3),
                      Binary(b, 4), Binary(b, 5), Binary(b, 6), Binary(b, 7));
    SumOfBits(a);
    SumOfBits(b);
  }

  lemma {:induction false} WordSmall(b: Byte)
    ensures Small(WordOf(b))
  {
    hide Binary;
    FromBitsSmall(Binary(b, 0), Binary(b, 1), Binary(b, 2), Binary(b, 3),
                  Binary(b, 4), Binary(b, 5), Binary(b, 6), Binary(b, 7));
    hide FromBits;
  }

  lemma {:induction false} FromBitsSmall(b0: bool, b1: bool, b2: bool, b3: bool, b4: bool, b5: bool, b6: bool, b7: bool)
    ensures FromBits(b0, b1, b2, b3, b4, b5, b6, b7) & !0xff == 0
  {
  }

  lemma {:induction false} TopDigit(a: bool, x: nat, b: bool, y: nat)
    requires One(a) + 2 * x == One(b) + 2 * y
    ensures a == b && x == y
  {
  }

  lemma {:induction false} FromBinaryInjective(a0: bool, a1: bool, a2: bool, a3: bool, a4: bool, a5: bool, a6: bool,
      a7: bool, b0: bool, b1: bool, b2: bool, b3: bool, b4: bool, b5: bool, b6: bool, b7: bool)
    requires FromBinary(a0, a1, a2, a3, a4, a5, a6, a7) == FromBinary(b0, b1, b2, b3, b4, b5, b6, b7)
    ensures a0 == b0 && a1 == b1 && a2 == b2 && a3 == b3 && a4 == b4 && a5 == b5 && a6 == b6 && a7 == b7
  {
    hide One;
    var x6, y6 := One(a6) + 2 * One(a7), One(b6) + 2 * One(b7);
    var x5, y5 := One(a5) + 2 * x6, One(b5) + 2 * y6;
    var x4, y4 := One(a4) + 2 * x5, One(b4) + 2 * y5;
    var x3, y3 := One(a3) + 2 * x4, One(b3) + 2 * y4;
    var x2, y2 := One(a2) + 2 * x3, One(b2) + 2 * y3;
    var x1, y1 := One(a1) + 2 * x2, One(b1) + 2 * y2;
    TopDigit(a0, x1, b0, y1);
    TopDigit(a1, x2, b1, y2);
    TopDigit(a2, x3, b2, y3);
    TopDigit(a3, x4, b3, y4);
    TopDigit(a4, x5, b4, y5);
    TopDigit(a5, x6, b5, y6);
    TopDigit(a6, One(a7), b6, One(b7));
    TopDigit(a7, 0, b7, 0);
  }

  // ------------------------------------------------------------ the register

  function High(c: Register): Register {
    Register(c.bits >> 8)
  }

  function Low(c: Register): Register {
    Register(c.bits & 0xff)
  }

  /** The low eight bits as a number. */
  function NumberOf(c: Register): Byte {
    FromBinary(c.bits & 0x01 != 0, c.bits & 0x02 != 0, c.bits & 0x04 != 0, c.bits & 0x08 != 0,
               c.bits & 0x10 != 0, c.bits & 0x20 != 0, c.bits & 0x40 != 0, c.bits & 0x80 != 0)
  }

  function HighByte(c: Register): Byte {
    NumberOf(High(c))
  }

  function LowByte(c: Register): Byte {
    NumberOf(c)
  }

  lemma {:induction false} NumberDetermines(a: Register, b: Register)
    requires NumberOf(a) == NumberOf(b)
    ensures Low(a) == Low(b)
  {
    hide FromBinary;
    var u, v := a.bits, b.bits;
    FromBinaryInjective(u & 0x01 != 0, u & 0x02 != 0, u & 0x04 != 0, u & 0x08 != 0,
                        u & 0x10 != 0, u & 0x20 != 0, u & 0x40 != 0, u & 0x80 != 0,
                        v & 0x01 != 0, v & 0x02 != 0, v & 0x04 != 0, v & 0x08 != 0,
                        v & 0x10 != 0, v & 0x20 != 0, v & 0x40 != 0, v & 0x80 != 0);
  }

  lemma {:induction false} JoinHalves(a: Register, b: Register)
    requires Low(High(a)) == Low(High(b)) && Low(a) == Low(b)
    ensures a == b
  {
  }

  /** The two bytes sent determine the checksum. */
  lemma {:induction false} BytesDetermine(a: Register, b: Register)
    requires HighByte(a) == HighByte(b) && LowByte(a) == LowByte(b)
    ensures a == b
  {
    hide NumberOf, High, Low;
    NumberDetermines(High(a), High(b));
    NumberDetermines(a, b);
    JoinHalves(a, b);
  }

  // ------------------------------------------------------------ division

  /** The reflected polynomial 0x8408, taken away when a one is divided out. */
  function Poly(bit: bv16): bv16 {
    if bit != 0 then 0x8408 else 0
  }

  function DivideBit(crc: bv16): bv16 {
    (crc >> 1) ^ Poly(crc & 1)
  }

  function DivideNibble(c: Register): Register {
    Register(DivideBit(DivideBit(DivideBit(DivideBit(c.bits)))))
  }

  function Xor(c: Register, d: Register): Register {
    Register(c.bits ^ d.bits)
  }

  function Enter(c: Register, b: Byte): Register {
    Xor(c, WordOf(b))
  }

  /** A byte enters at the low end and its eight bits are divided out. */
  function Divide(c: Register, b: Byte): Register {
    DivideNibble(DivideNibble(Enter(c, b)))
  }

  /** The checksum of a message, from 0xffff. */
  function Checksum(s: seq<Byte>): Register {
    if s == [] then Register(0xffff) else Divide(Checksum(s[..|s| - 1]), s[|s| - 1])
  }

  lemma {:induction false} BitInjective(a: bv16, b: bv16)
    requires DivideBit(a) == DivideBit(b)
    ensures a == b
  {
  }

  lemma {:induction false} NibbleInjective(a: Register, b: Register)
    requires DivideNibble(a) == DivideNibble(b)
    ensures a == b
  {
    hide DivideBit;
    var a1, b1 := DivideBit(a.bits), DivideBit(b.bits);
    var a2, b2 := DivideBit(a1), DivideBit(b1);
    var a3, b3 := DivideBit(a2), DivideBit(b2);
    BitInjective(a3, b3);
    BitInjective(a2, b2);
    BitInjective(a1, b1);
    BitInjective(a.bits, b.bits);
  }

  lemma {:induction false} CancelLeft(c: Register, d: Register, e: Register)
    requires Xor(c, d) == Xor(c, e)
    ensures d == e
  {
  }

  lemma {:induction false} CancelRight(c: Register, d: Register, e: Register)
    requires Xor(c, e) == Xor(d, e)
    ensures c == d
  {
  }

  lemma {:induction false} EnterDifferent(c: Register, d: Byte, e: Byte)
    requires Enter(c, d) == Enter(c, e)
    ensures d == e
  {
    hide WordOf, Xor;
    CancelLeft(c, WordOf(d), WordOf(e));
    WordInjective(d, e);
  }

  lemma {:induction false} EnterSame(a: Register, b: Register, d: Byte)
    requires Enter(a, d) == Enter(b, d)
    ensures a == b
  {
    hide WordOf, Xor;
    CancelRight(a, b, WordOf(d));
  }

  /** A different byte leads to a different checksum. */
  lemma {:induction false} DifferentByte(c: Register, d: Byte, e: Byte)
    requires Divide(c, d) == Divide(c, e)
    ensures d == e
  {
    hide DivideNibble, Enter;
    NibbleInjective(DivideNibble(Enter(c, d)), DivideNibble(Enter(c, e)));
    NibbleInjective(Enter(c, d), Enter(c, e));
    EnterDifferent(c, d, e);
  }

  /** A different checksum stays different over equal bytes. */
  lemma {:induction false} DifferentStart(a: Register, b: Register, d: Byte)
    requires Divide(a, d) == Divide(b, d)
    ensures a == b
  {
    hide DivideNibble, Enter;
    NibbleInjective(DivideNibble(Enter(a, d)), DivideNibble(Enter(b, d)));
    NibbleInjective(Enter(a, d), Enter(b, d));
    EnterSame(a, b, d);
  }

  /** Messages of one length that differ in one byte have different checksums. */
  lemma {:induction false} OneByteChange(a: seq<Byte>, i: nat, b: Byte)
    requires i < |a| && a[i] != b
    ensures Checksum(a[i := b]) != Checksum(a)
    decreases |a|
  {
    hide Divide;
    var n, c := |a| - 1, a[i := b];
    if Checksum(c) == Checksum(a) {
      if i == n {
        assert c[..n] == a[..n];
        DifferentByte(Checksum(a[..n]), c[n], a[n]);
      } else {
        OneByteChange(a[..n], i, b);
        assert c[..n] == a[..n][i := b];
        DifferentStart(Checksum(c[..n]), Checksum(a[..n]), a[n]);
      }
    }
  }

  // ------------------------------------------------------------ a byte at a time

  lemma {:induction false} PolyOf(c: bv16)
    ensures Poly(c & 1) == ((c & 1) << 15) ^ ((c & 1) << 10) ^ ((c & 1) << 3)
  {
  }

  lemma {:induction false} BitForm(c: bv16)
    ensures DivideBit(c) == (c >> 1) ^ ((c & 1) << 15) ^ ((c & 1) << 10) ^ ((c & 1) << 3)
  {
    PolyOf(c);
    hide Poly;
  }

  function Spread(l: bv16): bv16 {
    l ^ (l << 7) ^ (l << 12)
  }

  lemma {:induction false} NibbleForm(c: Register)
    ensures DivideNibble(c) == Register((c.bits >> 4) ^ Spread(c.bits & 15))
  {
    var x := c.bits;
    var y := DivideBit(x);
    BitForm(x);
    var z := DivideBit(y);
    BitForm(y);
    var w := DivideBit(z);
    BitForm(z);
    BitForm(w);
    hide DivideBit;
  }

  /** The step for a byte that has been mixed with the low half of the register. */
  function Fold(mixed: Register, high: Register): Register {
    Register(((mixed.bits << 8) | high.bits) ^ (mixed.bits >> 4) ^ (mixed.bits << 3))
  }

  function HostMix(c: Register, byte: Register): Register {
    var data := byte.bits ^ (c.bits & 0xff);
    Register(data ^ ((data & 0x0f) << 4))
  }

  /** The mixed byte keeps only eight bits. */
  function FirmwareMix(c: Register, byte: Register): Register {
    var data := byte.bits ^ (c.bits & 0xff);
    Register((data ^ (data << 4)) & 0xff)
  }

  function Mix(c: Register): Register {
    Register((c.bits ^ (c.bits << 4)) & 0xff)
  }

  /** The step the host takes for a byte. */
  function HostStep(c: Register, b: Byte): Register {
    Fold(HostMix(c, WordOf(b)), High(c))
  }

  /** The step the firmware takes for a byte. */
  function FirmwareStep(c: Register, b: Byte): Register {
    Fold(FirmwareMix(c, WordOf(b)), High(c))
  }

  lemma {:induction false} SameHostMix(c: Register, byte: Register)
    requires Small(byte)
    ensures HostMix(c, byte) == Mix(Xor(c, byte))
  {
  }

  lemma {:induction false} SameFirmwareMix(c: Register, byte: Register)
    requires Small(byte)
    ensures FirmwareMix(c, byte) == Mix(Xor(c, byte))
  {
  }

  lemma {:induction false} SameHigh(c: Register, byte: Register)
    requires Small(byte)
    ensures High(Xor(c, byte)) == High(c)
  {
  }

  /** Both steps fold the mixed low half into the high half of the register the byte has entered. */
  lemma {:induction false} StepsFold(c: Register, b: Byte)
    ensures HostStep(c, b) == Fold(Mix(Enter(c, b)), High(Enter(c, b))) == FirmwareStep(c, b)
  {
    hide HostMix, FirmwareMix, Mix, WordOf, Fold, High, Small, Xor;
    WordSmall(b);
    SameHostMix(c, WordOf(b));
    SameFirmwareMix(c, WordOf(b));
    SameHigh(c, WordOf(b));
  }

  /** What eight bits that are divided out leave behind. */
  function Remainder(c: Register): Register {
    var m := Mix(c).bits;
    Register((m << 8) ^ (m >> 4) ^ (m << 3))
  }

  lemma {:induction false} SmallParts(c: Register)
    ensures Small(Mix(c)) && Small(High(c))
  {
  }

  lemma {:induction false} FoldSmall(mixed: Register, high: Register)
    requires Small(mixed) && Small(high)
    ensures Fold(mixed, high) ==
            Xor(high, Register((mixed.bits << 8) ^ (mixed.bits >> 4) ^ (mixed.bits << 3)))
  {
  }

  lemma {:induction false} FoldForm(c: Register)
    ensures Fold(Mix(c), High(c)) == Xor(High(c), Remainder(c))
  {
    SmallParts(c);
    FoldSmall(Mix(c), High(c));
    hide Fold, Mix, High, Xor;
  }

  lemma {:induction false} SecondNibble(x: bv16, y: bv16)
    requires y == (x >> 4) ^ Spread(x & 15)
    ensures y >> 4 == (x >> 8) ^ (Spread(x & 15) >> 4) && y & 15 == ((x >> 4) & 15) ^ (x & 15)
  {
  }

  lemma {:induction false} TwoNibbles(c: Register)
    ensures (Spread(c.bits & 15) >> 4) ^ Spread(((c.bits >> 4) & 15) ^ (c.bits & 15)) == Remainder(c).bits
  {
  }

  lemma {:induction false} Regroup(h: bv16, a: bv16, b: bv16)
    ensures (h ^ a) ^ b == h ^ (a ^ b)
  {
  }

  lemma {:induction false} NibblesForm(c: Register)
    ensures DivideNibble(DivideNibble(c)) == Xor(High(c), Remainder(c))
  {
    var x := c.bits;
    NibbleForm(c);
    NibbleForm(DivideNibble(c));
    SecondNibble(x, DivideNibble(c).bits);
    TwoNibbles(c);
    Regroup(x >> 8, Spread(x & 15) >> 4, Spread(((x >> 4) & 15) ^ (x & 15)));
    hide DivideNibble, Remainder, Spread;
  }

  /** Both steps are the bit-serial division by a whole byte. */
  lemma {:induction false} StepDivides(c: Register, b: Byte)
    ensures HostStep(c, b) == Divide(c, b) == FirmwareStep(c, b)
  {
    hide HostStep, FirmwareStep, Fold, Mix, High, Enter, DivideNibble, Xor, Remainder;
    StepsFold(c, b);
    FoldForm(Enter(c, b));
    NibblesForm(Enter(c, b));
  }

  method HostCrc(buf: seq<Byte>) returns (crc: Register)
    ensures crc == Checksum(buf)
  {
    hide HostStep, Divide;
    crc := Register(0xffff);
    for i := 0 to |buf|
      invariant crc == Checksum(buf[..i])
    {
      StepDivides(crc, buf[i]);
      assert buf[..i + 1][..i] == buf[..i];
      crc := HostStep(crc, buf[i]);
    }
    assert buf[..|buf|] == buf;
  }

  method FirmwareCrc(buf: seq<Byte>) returns (crc: Register)
    ensures crc == Checksum(buf)
  {
    hide FirmwareStep, Divide;
    crc := Register(0xffff);
    var i, len := 0, |buf|;
    while len > 0
      invariant 0 <= len && i + len == |buf| && crc == Checksum(buf[..i])
    {
      StepDivides(crc, buf[i]);
      assert buf[..i + 1][..i] == buf[..i];
      crc := FirmwareStep(crc, buf[i]);
      i, len := i + 1, len - 1;
    }
    assert buf[..|buf|] == buf;
  }

  // ------------------------------------------------------------ a known checksum

  /** The checksum of the empty block's header, the two bytes 5 and 16, is 0x9e81: the high byte is
      sent first. */
  lemma {:induction false} HeaderChecksum()
    ensures HighByte(Checksum([5, 0x10])) == 0x9e && LowByte(Checksum([5, 0x10])) == 0x81
  {
    assert [5, 0x10][..1] == [5] && [5][..0] == [];
    assert Checksum([5, 0x10]) == Divide(Divide(Register(0xffff), 5), 0x10);
    hide Checksum;
    FiveAndSixteen();
    Dividing();
    hide Divide;
    HeaderBytes();
  }

  lemma {:induction false} FiveAndSixteen()
    ensures WordOf(5) == Register(5) && WordOf(0x10) == Register(0x10)
  {
    hide Binary, FromBits;
    BinaryFive();
    BinarySixteen();
    BitsOfFive();
    BitsOfSixteen();
  }

  lemma {:induction false} BinaryFive()
    ensures Binary(5, 0) && !Binary(5, 1) && Binary(5, 2) && !Binary(5, 3)
    ensures !Binary(5, 4) && !Binary(5, 5) && !Binary(5, 6) && !Binary(5, 7)
  {
  }

  lemma {:induction false} BinarySixteen()
    ensures !Binary(16, 0) && !Binary(16, 1) && !Binary(16, 2) && !Binary(16, 3)
    ensures Binary(16, 4) && !Binary(16, 5) && !Binary(16, 6) && !Binary(16, 7)
  {
  }

  lemma {:induction false} BitsOfFive()
    ensures FromBits(true, false, true, false, false, false, false, false) == 5
  {
  }

  lemma {:induction false} BitsOfSixteen()
    ensures FromBits(false, false, false, false, true, false, false, false) == 0x10
  {
  }

  lemma {:induction false} Dividing()
    requires WordOf(5) == Register(5) && WordOf(0x10) == Register(0x10)
    ensures Divide(Divide(Register(0xffff), 5), 0x10) == Register(0x9e81)
  {
    hide WordOf;
    assert Divide(Register(0xffff), 5) == Register(0x582a);
  }

  lemma {:induction false} HeaderBytes()
    ensures HighByte(Register(0x9e81)) == 0x9e && LowByte(Register(0x9e81)) == 0x81
  {
    assert High(Register(0x9e81)) == Register(0x9e);
    hide High;
    LowByteOf(0x9e81);
    LowByteOf(0x9e);
  }

  lemma {:induction false} LowByteOf(x: bv16)
    requires x == 0x9e81 || x == 0x9e
    ensures NumberOf(Register(x)) == if x == 0x9e then 0x9e else 0x81
  {
    hide FromBinary;
    NumbersOfBits();
  }

  lemma {:induction false} NumbersOfBits()
    ensures FromBinary(true, false, false, false, false, false, false, true) == 0x81
    ensures FromBinary(false, true, true, true, true, false, false, true) == 0x9e
  {
  }
}
