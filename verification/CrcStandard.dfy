/** Lists of single bytes, put together. */
module ByteLists {
  lemma Four(a: bv8, b: bv8, c: bv8, d: bv8)
    ensures [a] + [b, c, d] == [a, b, c, d] && [b] + [c, d] == [b, c, d] && [c] + [d] == [c, d] && [d] + [] == [d]
  {}

  lemma Five(a: bv8, b: bv8, c: bv8, d: bv8, e: bv8, tail: seq<bv8>)
    ensures [a] + ([b] + ([c] + ([d] + ([e] + tail)))) == [a, b, c, d, e] + tail
  {}

  lemma Nine(a: bv8, b: bv8, c: bv8, d: bv8, e: bv8, f: bv8, g: bv8, h: bv8, i: bv8)
    ensures [a, b, c, d, e] + [f, g, h, i] == [a, b, c, d, e, f, g, h, i]
  {}
}

/** That the three checksums are the standard ones: each is the remainder of long division by its generator
    polynomial, and has the check value that components/embediq_crc/embediq_crc.h gives. */
module Crc32Standard {
  import opened BitRegister
  import opened ByteStream
  import opened ByteLists
  import opened LongDivision
  import opened Crc32

  /** The generator of RFC 1952, section 8, and of ISO HDLC. */
  function Polynomial(): seq<bool> {
    Generator(32, {32, 26, 23, 22, 16, 12, 11, 10, 8, 7, 5, 4, 2, 1, 0})
  }

  function Lowest(c: bv32): bv8 {
    (c & 0xFF) as bv8
  }

  function Above(c: bv32): bv32 {
    c >> 8
  }

  /** A register as four bytes, least significant first. */
  function Bytes(c: bv32): seq<bv8> {
    [Lowest(c), Lowest(Above(c)), Lowest(Above(Above(c))), Lowest(Above(Above(Above(c))))]
  }

  lemma AllAbove(c: bv32)
    ensures (((c >> 8) >> 8) >> 8) >> 8 == 0
  {}

  lemma LowBits(c: bv32)
    ensures Out(c) == Out(c & 0xFF) && Out(c >> 1) == Out((c & 0xFF) >> 1)
    ensures Out(c >> 2) == Out((c & 0xFF) >> 2) && Out(c >> 3) == Out((c & 0xFF) >> 3)
    ensures Out(c >> 4) == Out((c & 0xFF) >> 4) && Out(c >> 5) == Out((c & 0xFF) >> 5)
    ensures Out(c >> 6) == Out((c & 0xFF) >> 6) && Out(c >> 7) == Out((c & 0xFF) >> 7)
  {}

  lemma LowestOut(c: bv32)
    ensures OutBits(Reg(), c, 8) == ByteBits(LsbFirst, Lowest(c))
  {
    WordBits(c);
    WordBits(c & 0xFF);
    LowBits(c);
    LowByte(c);
    ByteOut(Lowest(c));
  }

  lemma NextByte(c: bv32, n: nat)
    ensures OutBits(Reg(), c, 8 + n) == ByteBits(LsbFirst, Lowest(c)) + OutBits(Reg(), Above(c), n)
    ensures RestN(Reg(), c, 8 + n) == RestN(Reg(), Above(c), n)
  {
    OutSplit(Reg(), c, 8, n);
    LowestOut(c);
    WordBits(c);
  }

  /** w is 32. */
  predicate Wide(w: nat) {
    31 < w < 33
  }

  lemma BytesOut(c: bv32, w: nat)
    requires Wide(w)
    ensures OutBits(Reg(), c, w) == Bits(LsbFirst, Bytes(c))
    ensures RestN(Reg(), c, w) == 0
  {
    var c1 := Above(c);
    var c2 := Above(c1);
    var c3 := Above(c2);
    NextByte(c, w - 8);
    NextByte(c1, w - 16);
    NextByte(c2, w - 24);
    LastByte(c3, w - 24);
    FourBits(Lowest(c), Lowest(c1), Lowest(c2), Lowest(c3));
    AllAbove(c);
  }

  lemma LastByte(c: bv32, n: nat)
    requires 7 < n < 9
    ensures OutBits(Reg(), c, n) == ByteBits(LsbFirst, Lowest(c)) && RestN(Reg(), c, n) == Above(c)
  {
    LowestOut(c);
    WordBits(c);
  }

  lemma FourBits(b0: bv8, b1: bv8, b2: bv8, b3: bv8)
    ensures Bits(LsbFirst, [b0, b1, b2, b3]) ==
            ByteBits(LsbFirst, b0) + (ByteBits(LsbFirst, b1) + (ByteBits(LsbFirst, b2) + ByteBits(LsbFirst, b3)))
  {
    OneByte(b0, [b1, b2, b3]);
    OneByte(b1, [b2, b3]);
    OneByte(b2, [b3]);
    OneByte(b3, []);
  }

  lemma OneByte(b: bv8, rest: seq<bv8>)
    ensures Bits(LsbFirst, [b] + rest) == ByteBits(LsbFirst, b) + Bits(LsbFirst, rest)
  {
    assert ([b] + rest)[1..] == rest;
  }

  // ---------------------------------------------------------------- the check value

  lemma Digit1(tail: seq<bv8>)
    ensures UpdateBits(0xFFFFFFFF, [0x31] + tail) == UpdateBits(0x7C231048, tail)
  {
    EightSteps(0xFFFFFFCE, 0x7FFFFFE7, 0xD2477CD3, 0x849B3D49, 0xAFF51D84, 0x57FA8EC2, 0x2BFD4761, 0xF8462090, 0x7C231048);
    PrependByte(0xFFFFFFFF, 0x31, tail);
  }

  lemma Digit2(tail: seq<bv8>)
    ensures UpdateBits(0x7C231048, [0x32] + tail) == UpdateBits(0xB0ACBB32, tail)
  {
    EightSteps(0x7C23107A, 0x3E11883D, 0xF2B0473E, 0x7958239F, 0xD11492EF, 0x8532CA57, 0xAF21E60B, 0xBA287025, 0xB0ACBB32);
    PrependByte(0x7C231048, 0x32, tail);
  }

  lemma Digit3(tail: seq<bv8>)
    ensures UpdateBits(0xB0ACBB32, [0x33] + tail) == UpdateBits(0x77B79C2D, tail)
  {
    EightSteps(0xB0ACBB01, 0xB5EEDEA0, 0x5AF76F50, 0x2D7BB7A8, 0x16BDDBD4, 0xB5EEDEA, 0x5AF76F5, 0xEF6F385A, 0x77B79C2D);
    PrependByte(0xB0ACBB32, 0x33, tail);
  }

  lemma Digit4(tail: seq<bv8>)
    ensures UpdateBits(0x77B79C2D, [0x34] + tail) == UpdateBits(0x641C1F5C, tail)
  {
    EightSteps(0x77B79C19, 0xD6634D2C, 0x6B31A696, 0x3598D34B, 0xF774EA85, 0x9602F662, 0x4B017B31, 0xC8383EB8, 0x641C1F5C);
    PrependByte(0x77B79C2D, 0x34, tail);
  }

  lemma Digit5(tail: seq<bv8>)
    ensures UpdateBits(0x641C1F5C, [0x35] + tail) == UpdateBits(0x340AC5E3, tail)
  {
    EightSteps(0x641C1F69, 0xDFB68C94, 0x6FDB464A, 0x37EDA325, 0xF64E52B2, 0x7B272959, 0xD02B178C, 0x68158BC6, 0x340AC5E3);
    PrependByte(0x641C1F5C, 0x35, tail);
  }

  lemma Digit6(tail: seq<bv8>)
    ensures UpdateBits(0x340AC5E3, [0x36] + tail) == UpdateBits(0xF68D2C9E, tail)
  {
    EightSteps(0x340AC5D5, 0xF7BDE1CA, 0x7BDEF0E5, 0xD057FB52, 0x682BFDA9, 0xD9AD7DF4, 0x6CD6BEFA, 0x366B5F7D, 0xF68D2C9E);
    PrependByte(0x340AC5E3, 0x36, tail);
  }

  lemma Digit7(tail: seq<bv8>)
    ensures UpdateBits(0xF68D2C9E, [0x37] + tail) == UpdateBits(0xAFFC9660, tail)
  {
    EightSteps(0xF68D2CA9, 0x96FE1574, 0x4B7F0ABA, 0x25BF855D, 0xFF67418E, 0x7FB3A0C7, 0xD2615343, 0x84882A81, 0xAFFC9660);
    PrependByte(0xF68D2C9E, 0x37, tail);
  }

  lemma Digit8(tail: seq<bv8>)
    ensures UpdateBits(0xAFFC9660, [0x38] + tail) == UpdateBits(0x651F2550, tail)
  {
    EightSteps(0xAFFC9658, 0x57FE4B2C, 0x2BFF2596, 0x15FF92CB, 0xE7474A45, 0x9E1B2602, 0x4F0D9301, 0xCA3E4AA0, 0x651F2550);
    PrependByte(0xAFFC9660, 0x38, tail);
  }

  lemma Digit9(tail: seq<bv8>)
    ensures UpdateBits(0x651F2550, [0x39] + tail) == UpdateBits(0x340BC6D9, tail)
  {
    EightSteps(0x651F2569, 0xDF371194, 0x6F9B88CA, 0x37CDC465, 0xF65E6112, 0x7B2F3089, 0xD02F1B64, 0x68178DB2, 0x340BC6D9);
    PrependByte(0x651F2550, 0x39, tail);
  }

  lemma FirstDigits(tail: seq<bv8>)
    ensures UpdateBits(0xFFFFFFFF, [0x31, 0x32, 0x33, 0x34, 0x35] + tail) == UpdateBits(0x340AC5E3, tail)
  {
    var d5: seq<bv8> := [0x35] + tail;
    var d4: seq<bv8> := [0x34] + d5;
    var d3: seq<bv8> := [0x33] + d4;
    var d2: seq<bv8> := [0x32] + d3;
    Digit1(d2);
    Digit2(d3);
    Digit3(d4);
    Digit4(d5);
    Digit5(tail);
    Five(0x31, 0x32, 0x33, 0x34, 0x35, tail);
  }

  lemma LastDigits()
    ensures UpdateBits(0x340AC5E3, [0x36, 0x37, 0x38, 0x39]) == 0x340BC6D9
  {
    Digit6([0x37, 0x38, 0x39]);
    Digit7([0x38, 0x39]);
    Digit8([0x39]);
    Digit9([]);
    Four(0x36, 0x37, 0x38, 0x39);
  }

  /** The check value of the header, for the digits 1 to 9 in ASCII. */
  lemma CheckValue()
    ensures Checksum([0x31, 0x32, 0x33, 0x34, 0x35, 0x36, 0x37, 0x38, 0x39]) == 0xCBF43926
  {
    FirstDigits([0x36, 0x37, 0x38, 0x39]);
    LastDigits();
    Nine(0x31, 0x32, 0x33, 0x34, 0x35, 0x36, 0x37, 0x38, 0x39);
  }

  // ---------------------------------------------------------------- the remainder

  lemma Octet20()
    ensures ByteBits(LsbFirst, 0x20) == [false, false, false, false, false, true, false, false]
  {}

  lemma Octet83()
    ensures ByteBits(LsbFirst, 0x83) == [true, true, false, false, false, false, false, true]
  {}

  lemma OctetB8()
    ensures ByteBits(LsbFirst, 0xB8) == [false, false, false, true, true, true, false, true]
  {}

  lemma OctetED()
    ensures ByteBits(LsbFirst, 0xED) == [true, false, true, true, false, true, true, true]
  {}

  lemma Coefficients0()
    ensures Polynomial()[1..9] == [false, false, false, false, false, true, false, false]
  {}

  lemma Coefficients1()
    ensures Polynomial()[9..17] == [true, true, false, false, false, false, false, true]
  {}

  lemma Coefficients2()
    ensures Polynomial()[17..25] == [false, false, false, true, true, true, false, true]
  {}

  lemma Coefficients3()
    ensures Polynomial()[25..33] == [true, false, true, true, false, true, true, true]
  {}

  lemma TapsOut(taps: bv32, w: nat)
    requires taps == 0xEDB88320 && Wide(w)
    ensures OutBits(Reg(), taps, w) == Polynomial()[1..]
  {
    BytesOut(taps, w);
    TapBytes();
    TapBits();
  }

  lemma TapBytes()
    ensures Bytes(0xEDB88320) == [0x20, 0x83, 0xB8, 0xED]
  {}

  lemma TapBits()
    ensures Bits(LsbFirst, [0x20, 0x83, 0xB8, 0xED]) == Polynomial()[1..]
  {
    FourBits(0x20, 0x83, 0xB8, 0xED);
    Octet20();
    Octet83();
    OctetB8();
    OctetED();
    Coefficients0();
    Coefficients1();
    Coefficients2();
    Coefficients3();
    Pieces(Polynomial());
  }

  lemma Pieces(p: seq<bool>)
    requires |p| == 33
    ensures p[1..] == p[1..9] + (p[9..17] + (p[17..25] + p[25..33]))
  {}

  lemma TakeStep(c: bv32)
    ensures Step(c) == if Out(c) then Xor(Rest(c), 0xEDB8_8320) else Rest(c)
  {}

  lemma OutAdds(a: bv32, b: bv32)
    ensures Out(Xor(a, b)) == (Out(a) != Out(b))
  {
    LowBitXor(a, b);
  }

  lemma RestAdds(a: bv32, b: bv32)
    ensures Rest(Xor(a, b)) == Xor(Rest(a), Rest(b))
  {
    LowBitXor(a, b);
  }

  lemma InjectOut(bit: bool)
    ensures Out(Inject(bit)) == bit && Rest(Inject(bit)) == 0
  {}

  lemma AddsOut()
    ensures OutAdditive(Reg())
  {
    var reg := Reg();
    forall a, b {:trigger reg.out(reg.xor(a, b))}
      ensures reg.out(reg.xor(a, b)) == (reg.out(a) != reg.out(b))
    {
      RegOut(a, b);
    }
  }

  lemma OutIs(v: bv32)
    ensures Reg().out(v) == Out(v)
  {}

  lemma OutOf(a: bv32, b: bv32, c: bv32)
    requires c == Xor(a, b)
    ensures Reg().out(c) == (Reg().out(a) != Reg().out(b))
  {
    OutIs(a);
    OutIs(b);
    OutIs(c);
    OutAdds(a, b);
  }

  lemma RegOut(a: bv32, b: bv32)
    ensures Reg().out(Reg().xor(a, b)) == (Reg().out(a) != Reg().out(b))
  {
    assert Reg().xor(a, b) == Xor(a, b);
    OutOf(a, b, Xor(a, b));
  }

  lemma RegRest(a: bv32, b: bv32)
    ensures Reg().rest(Reg().xor(a, b)) == Reg().xor(Reg().rest(a), Reg().rest(b))
  {
    RestAdds(a, b);
  }

  lemma AddsRest()
    ensures RestAdditive(Reg())
  {
    var reg := Reg();
    forall a, b {:trigger reg.rest(reg.xor(a, b))}
      ensures reg.rest(reg.xor(a, b)) == reg.xor(reg.rest(a), reg.rest(b))
    {
      RegRest(a, b);
    }
  }

  lemma IsTakingOff()
    ensures TakesOff(Reg(), 0xEDB8_8320)
  {
    var reg := Reg();
    forall c
      ensures reg.step(c) == if reg.out(c) then reg.xor(reg.rest(c), 0xEDB8_8320) else reg.rest(c)
    {
      TakeStep(c);
    }
  }

  lemma IsInjecting()
    ensures InjectsFirst(Reg())
  {
    var reg := Reg();
    forall bit
      ensures reg.out(reg.inject(bit)) == bit && reg.rest(reg.inject(bit)) == reg.zero
    {
      InjectOut(bit);
    }
    forall c
      ensures reg.xor(c, reg.zero) == c
    {
      XorZero(c);
    }
  }

  lemma IsEmptying(w: nat)
    requires Wide(w)
    ensures Empties(Reg(), w)
  {
    forall c
      ensures RestN(Reg(), c, w) == Reg().zero
    {
      BytesOut(c, w);
    }
  }

  lemma IsFeedback(taps: bv32, w: nat)
    requires taps == 0xEDB8_8320 && Wide(w)
    ensures Feedback(Reg(), w, Polynomial(), taps)
  {
    TapsOut(taps, w);
    AddsOut();
    AddsRest();
    IsTakingOff();
    IsInjecting();
    IsEmptying(w);
  }

  lemma OnesOut(ones: bv32, w: nat)
    requires ones == 0xFFFF_FFFF && Wide(w)
    ensures forall i :: 0 <= i < w ==> OutBits(Reg(), ones, w)[i]
  {
    BytesOut(ones, w);
    OnesBytes();
    FourBits(0xFF, 0xFF, 0xFF, 0xFF);
  }

  lemma OnesBytes()
    ensures Bytes(0xFFFF_FFFF) == [0xFF, 0xFF, 0xFF, 0xFF]
  {}

  lemma RunRemainder(c: bv32, bits: seq<bool>, w: nat)
    requires Wide(w)
    ensures OutBits(Reg(), Run(Reg(), c, bits), w) ==
            Remainder(Subtract(bits + Zeros(w), OutBits(Reg(), c, w)), Polynomial())
  {
    var taps: bv32 := 0xEDB8_8320;
    IsFeedback(taps, w);
    RunDivides(Reg(), w, Polynomial(), taps, c, bits);
  }

  lemma FlippedOut(c: bv32, ones: bv32, w: nat)
    requires ones == 0xFFFF_FFFF && Wide(w)
    ensures OutBits(Reg(), Xor(c, ones), w) == Complement(OutBits(Reg(), c, w))
  {
    AddsOut();
    AddsRest();
    OutXor(Reg(), c, ones, w);
    OnesOut(ones, w);
  }

  lemma RegisterRemainder(data: seq<bv8>, start: bv32, w: nat)
    requires start == 0xFFFF_FFFF && Wide(w)
    ensures OutBits(Reg(), Xor(UpdateBits(start, data), start), w) ==
            Complement(Remainder(Inverted(Bits(LsbFirst, data), w), Polynomial()))
  {
    var bits := Bits(LsbFirst, data);
    RunRemainder(start, bits, w);
    OnesOut(start, w);
    OnesInvert(bits, OutBits(Reg(), start, w));
    FlippedOut(UpdateBits(start, data), start, w);
  }

  /** The bytes of the checksum, least significant first and sent least significant bit first like the message, are
      the complement of the remainder that the message, its first 32 bits complemented, leaves by the generator. */
  lemma ChecksumIsRemainder(data: seq<bv8>)
    ensures Bits(LsbFirst, Bytes(Checksum(data))) ==
            Complement(Remainder(Inverted(Bits(LsbFirst, data), 32), Polynomial()))
  {
    assert Wide(32);
    var w: nat :| Wide(w);
    RegisterRemainder(data, 0xFFFF_FFFF, w);
    BytesOut(Checksum(data), w);
  }

  lemma FirstZero()
    ensures StepN(Reg(), INIT, 8) != INIT
  {
    EightSteps(0xFFFFFFFF, 0x92477CDF, 0xA49B3D4F, 0xBFF51D87, 0xB2420DE3, 0xB49985D1, 0xB7F441C8, 0x5BFA20E4, 0x2DFD1072);
  }

  /** The start value makes a zero byte in front of a message show. */
  lemma LeadingZeroShows(data: seq<bv8>)
    ensures Checksum([0] + data) != Checksum(data)
  {
    var c := StepN(Reg(), INIT, 8);
    PrependByte(INIT, 0, data);
    XorZero(INIT);
    FirstZero();
    FeedsLinearly();
    StartShows(Reg(), LsbFirst, INIT, c, data);
    FinalInjective(UpdateBits(INIT, data), UpdateBits(c, data));
  }
}

/** As Crc32Standard, for CRC-16/CCITT-FALSE. */
module Crc16Standard {
  import opened BitRegister
  import opened ByteStream
  import opened ByteLists
  import opened LongDivision
  import opened Crc16

  /** The generator of ITU-T V.41. */
  function Polynomial(): seq<bool> {
    Generator(16, {16, 12, 5, 0})
  }

  function Highest(c: bv16): bv8 {
    ((c >> 8) & 0xFF) as bv8
  }

  /** A register as two bytes, most significant first. */
  function Bytes(c: bv16): seq<bv8> {
    [Highest(c), Highest(c << 8)]
  }

  lemma AllShifted(c: bv16)
    ensures (c << 8) << 8 == 0
  {}

  lemma HighByte(c: bv16)
    ensures Aligned(Highest(c)) == c & 0xFF00
  {}

  lemma HighBits(c: bv16)
    ensures Out(c) == Out(c & 0xFF00) && Out(c << 1) == Out((c & 0xFF00) << 1)
    ensures Out(c << 2) == Out((c & 0xFF00) << 2) && Out(c << 3) == Out((c & 0xFF00) << 3)
    ensures Out(c << 4) == Out((c & 0xFF00) << 4) && Out(c << 5) == Out((c & 0xFF00) << 5)
    ensures Out(c << 6) == Out((c & 0xFF00) << 6) && Out(c << 7) == Out((c & 0xFF00) << 7)
  {}

  lemma HighestOut(c: bv16)
    ensures OutBits(Reg(), c, 8) == ByteBits(MsbFirst, Highest(c))
  {
    WordBits(c);
    WordBits(c & 0xFF00);
    HighBits(c);
    HighByte(c);
    ByteOut(Highest(c));
  }

  /** w is 16. */
  predicate Wide(w: nat) {
    15 < w < 17
  }

  lemma BytesOut(c: bv16, w: nat)
    requires Wide(w)
    ensures OutBits(Reg(), c, w) == Bits(MsbFirst, Bytes(c))
    ensures RestN(Reg(), c, w) == 0
  {
    OutSplit(Reg(), c, 8, w - 8);
    HighestOut(c);
    WordBits(c);
    LastByte(c << 8, w - 8);
    TwoBits(Highest(c), Highest(c << 8));
    AllShifted(c);
  }

  lemma LastByte(c: bv16, n: nat)
    requires 7 < n < 9
    ensures OutBits(Reg(), c, n) == ByteBits(MsbFirst, Highest(c)) && RestN(Reg(), c, n) == c << 8
  {
    HighestOut(c);
    WordBits(c);
  }

  lemma TwoBits(a: bv8, b: bv8)
    ensures Bits(MsbFirst, [a, b]) == ByteBits(MsbFirst, a) + ByteBits(MsbFirst, b)
  {
    assert [a, b][1..] == [b] && [b][1..] == [];
    assert ByteBits(MsbFirst, b) + [] == ByteBits(MsbFirst, b);
  }

  // ---------------------------------------------------------------- the check value

  lemma Digit1(tail: seq<bv8>)
    ensures UpdateBits(0xFFFF, [0x31] + tail) == UpdateBits(0xC782, tail)
  {
    EightSteps(0xCEFF, 0x8DDF, 0xB9F, 0x173E, 0x2E7C, 0x5CF8, 0xB9F0, 0x63C1, 0xC782);
    PrependByte(0xFFFF, 0x31, tail);
  }

  lemma Digit2(tail: seq<bv8>)
    ensures UpdateBits(0xC782, [0x32] + tail) == UpdateBits(0x3DBA, tail)
  {
    EightSteps(0xF582, 0xFB25, 0xE66B, 0xDCF7, 0xA9CF, 0x43BF, 0x877E, 0x1EDD, 0x3DBA);
    PrependByte(0xC782, 0x32, tail);
  }

  lemma Digit3(tail: seq<bv8>)
    ensures UpdateBits(0x3DBA, [0x33] + tail) == UpdateBits(0x5BCE, tail)
  {
    EightSteps(0xEBA, 0x1D74, 0x3AE8, 0x75D0, 0xEBA0, 0xC761, 0x9EE3, 0x2DE7, 0x5BCE);
    PrependByte(0x3DBA, 0x33, tail);
  }

  lemma Digit4(tail: seq<bv8>)
    ensures UpdateBits(0x5BCE, [0x34] + tail) == UpdateBits(0x5349, tail)
  {
    EightSteps(0x6FCE, 0xDF9C, 0xAF19, 0x4E13, 0x9C26, 0x286D, 0x50DA, 0xA1B4, 0x5349);
    PrependByte(0x5BCE, 0x34, tail);
  }

  lemma Digit5(tail: seq<bv8>)
    ensures UpdateBits(0x5349, [0x35] + tail) == UpdateBits(0x4560, tail)
  {
    EightSteps(0x6649, 0xCC92, 0x8905, 0x22B, 0x456, 0x8AC, 0x1158, 0x22B0, 0x4560);
    PrependByte(0x5349, 0x35, tail);
  }

  lemma Digit6(tail: seq<bv8>)
    ensures UpdateBits(0x4560, [0x36] + tail) == UpdateBits(0x2EF4, tail)
  {
    EightSteps(0x7360, 0xE6C0, 0xDDA1, 0xAB63, 0x46E7, 0x8DCE, 0xBBD, 0x177A, 0x2EF4);
    PrependByte(0x4560, 0x36, tail);
  }

  lemma Digit7(tail: seq<bv8>)
    ensures UpdateBits(0x2EF4, [0x37] + tail) == UpdateBits(0x7718, tail)
  {
    EightSteps(0x19F4, 0x33E8, 0x67D0, 0xCFA0, 0x8F61, 0xEE3, 0x1DC6, 0x3B8C, 0x7718);
    PrependByte(0x2EF4, 0x37, tail);
  }

  lemma Digit8(tail: seq<bv8>)
    ensures UpdateBits(0x7718, [0x38] + tail) == UpdateBits(0xA12B, tail)
  {
    EightSteps(0x4F18, 0x9E30, 0x2C41, 0x5882, 0xB104, 0x7229, 0xE452, 0xD885, 0xA12B);
    PrependByte(0x7718, 0x38, tail);
  }

  lemma Digit9(tail: seq<bv8>)
    ensures UpdateBits(0xA12B, [0x39] + tail) == UpdateBits(0x29B1, tail)
  {
    EightSteps(0x982B, 0x2077, 0x40EE, 0x81DC, 0x1399, 0x2732, 0x4E64, 0x9CC8, 0x29B1);
    PrependByte(0xA12B, 0x39, tail);
  }

  lemma FirstDigits(tail: seq<bv8>)
    ensures UpdateBits(0xFFFF, [0x31, 0x32, 0x33, 0x34, 0x35] + tail) == UpdateBits(0x4560, tail)
  {
    var d5: seq<bv8> := [0x35] + tail;
    var d4: seq<bv8> := [0x34] + d5;
    var d3: seq<bv8> := [0x33] + d4;
    var d2: seq<bv8> := [0x32] + d3;
    Digit1(d2);
    Digit2(d3);
    Digit3(d4);
    Digit4(d5);
    Digit5(tail);
    Five(0x31, 0x32, 0x33, 0x34, 0x35, tail);
  }

  lemma LastDigits()
    ensures UpdateBits(0x4560, [0x36, 0x37, 0x38, 0x39]) == 0x29B1
  {
    Digit6([0x37, 0x38, 0x39]);
    Digit7([0x38, 0x39]);
    Digit8([0x39]);
    Digit9([]);
    Four(0x36, 0x37, 0x38, 0x39);
  }

  /** The check value of the header, for the digits 1 to 9 in ASCII. */
  lemma CheckValue()
    ensures Checksum([0x31, 0x32, 0x33, 0x34, 0x35, 0x36, 0x37, 0x38, 0x39]) == 0x29B1
  {
    FirstDigits([0x36, 0x37, 0x38, 0x39]);
    LastDigits();
    Nine(0x31, 0x32, 0x33, 0x34, 0x35, 0x36, 0x37, 0x38, 0x39);
  }

  // ---------------------------------------------------------------- the remainder

  lemma Octet10()
    ensures ByteBits(MsbFirst, 0x10) == [false, false, false, true, false, false, false, false]
  {
    HighToLow(0x10);
  }

  lemma Octet21()
    ensures ByteBits(MsbFirst, 0x21) == [false, false, true, false, false, false, false, true]
  {
    HighToLow(0x21);
  }

  lemma Coefficients0()
    ensures Polynomial()[1..9] == [false, false, false, true, false, false, false, false]
  {}

  lemma Coefficients1()
    ensures Polynomial()[9..17] == [false, false, true, false, false, false, false, true]
  {}

  lemma TapsOut(taps: bv16, w: nat)
    requires taps == 0x1021 && Wide(w)
    ensures OutBits(Reg(), taps, w) == Polynomial()[1..]
  {
    BytesOut(taps, w);
    TapBytes();
    TapBits();
  }

  lemma TapBytes()
    ensures Bytes(0x1021) == [0x10, 0x21]
  {}

  lemma TapBits()
    ensures Bits(MsbFirst, [0x10, 0x21]) == Polynomial()[1..]
  {
    TwoBits(0x10, 0x21);
    Octet10();
    Octet21();
    Coefficients0();
    Coefficients1();
    Pieces(Polynomial());
  }

  lemma Pieces(p: seq<bool>)
    requires |p| == 17
    ensures p[1..] == p[1..9] + p[9..17]
  {}

  lemma TakeStep(c: bv16)
    ensures Step(c) == if Out(c) then Xor(Rest(c), 0x1021) else Rest(c)
  {}

  lemma OutAdds(a: bv16, b: bv16)
    ensures Out(Xor(a, b)) == (Out(a) != Out(b))
  {}

  lemma RestAdds(a: bv16, b: bv16)
    ensures Rest(Xor(a, b)) == Xor(Rest(a), Rest(b))
  {}

  lemma InjectOut(bit: bool)
    ensures Out(Inject(bit)) == bit && Rest(Inject(bit)) == 0
  {}

  lemma AddsOut()
    ensures OutAdditive(Reg())
  {
    var reg := Reg();
    forall a, b {:trigger reg.out(reg.xor(a, b))}
      ensures reg.out(reg.xor(a, b)) == (reg.out(a) != reg.out(b))
    {
      RegOut(a, b);
    }
  }

  lemma OutIs(v: bv16)
    ensures Reg().out(v) == Out(v)
  {}

  lemma OutOf(a: bv16, b: bv16, c: bv16)
    requires c == Xor(a, b)
    ensures Reg().out(c) == (Reg().out(a) != Reg().out(b))
  {
    OutIs(a);
    OutIs(b);
    OutIs(c);
    OutAdds(a, b);
  }

  lemma RegOut(a: bv16, b: bv16)
    ensures Reg().out(Reg().xor(a, b)) == (Reg().out(a) != Reg().out(b))
  {
    assert Reg().xor(a, b) == Xor(a, b);
    OutOf(a, b, Xor(a, b));
  }

  lemma RegRest(a: bv16, b: bv16)
    ensures Reg().rest(Reg().xor(a, b)) == Reg().xor(Reg().rest(a), Reg().rest(b))
  {
    RestAdds(a, b);
  }

  lemma AddsRest()
    ensures RestAdditive(Reg())
  {
    var reg := Reg();
    forall a, b {:trigger reg.rest(reg.xor(a, b))}
      ensures reg.rest(reg.xor(a, b)) == reg.xor(reg.rest(a), reg.rest(b))
    {
      RegRest(a, b);
    }
  }

  lemma IsTakingOff()
    ensures TakesOff(Reg(), 0x1021)
  {
    var reg := Reg();
    forall c
      ensures reg.step(c) == if reg.out(c) then reg.xor(reg.rest(c), 0x1021) else reg.rest(c)
    {
      TakeStep(c);
    }
  }

  lemma IsInjecting()
    ensures InjectsFirst(Reg())
  {
    var reg := Reg();
    forall bit
      ensures reg.out(reg.inject(bit)) == bit && reg.rest(reg.inject(bit)) == reg.zero
    {
      InjectOut(bit);
    }
    forall c
      ensures reg.xor(c, reg.zero) == c
    {
      XorZero(c);
    }
  }

  lemma IsEmptying(w: nat)
    requires Wide(w)
    ensures Empties(Reg(), w)
  {
    forall c
      ensures RestN(Reg(), c, w) == Reg().zero
    {
      BytesOut(c, w);
    }
  }

  lemma IsFeedback(taps: bv16, w: nat)
    requires taps == 0x1021 && Wide(w)
    ensures Feedback(Reg(), w, Polynomial(), taps)
  {
    TapsOut(taps, w);
    AddsOut();
    AddsRest();
    IsTakingOff();
    IsInjecting();
    IsEmptying(w);
  }

  lemma OnesOut(ones: bv16, w: nat)
    requires ones == 0xFFFF && Wide(w)
    ensures forall i :: 0 <= i < w ==> OutBits(Reg(), ones, w)[i]
  {
    BytesOut(ones, w);
    OnesBytes();
    TwoBits(0xFF, 0xFF);
    HighToLow(0xFF);
  }

  lemma OnesBytes()
    ensures Bytes(0xFFFF) == [0xFF, 0xFF]
  {}

  lemma RunRemainder(c: bv16, bits: seq<bool>, w: nat)
    requires Wide(w)
    ensures OutBits(Reg(), Run(Reg(), c, bits), w) ==
            Remainder(Subtract(bits + Zeros(w), OutBits(Reg(), c, w)), Polynomial())
  {
    var taps: bv16 := 0x1021;
    IsFeedback(taps, w);
    RunDivides(Reg(), w, Polynomial(), taps, c, bits);
  }

  lemma RegisterRemainder(data: seq<bv8>, start: bv16, w: nat)
    requires start == 0xFFFF && Wide(w)
    ensures OutBits(Reg(), UpdateBits(start, data), w) == Remainder(Inverted(Bits(MsbFirst, data), w), Polynomial())
  {
    var bits := Bits(MsbFirst, data);
    RunRemainder(start, bits, w);
    OnesOut(start, w);
    OnesInvert(bits, OutBits(Reg(), start, w));
  }

  /** The bytes of the checksum, most significant first and sent most significant bit first like the message, are the
      remainder that the message, its first 16 bits complemented, leaves by the generator. */
  lemma ChecksumIsRemainder(data: seq<bv8>)
    ensures Bits(MsbFirst, Bytes(Checksum(data))) == Remainder(Inverted(Bits(MsbFirst, data), 16), Polynomial())
  {
    assert Wide(16);
    var w: nat :| Wide(w);
    RegisterRemainder(data, 0xFFFF, w);
    BytesOut(Checksum(data), w);
  }

  lemma FirstZero()
    ensures StepN(Reg(), INIT, 8) != INIT
  {
    EightSteps(0xFFFF, 0xEFDF, 0xCF9F, 0x8F1F, 0xE1F, 0x1C3E, 0x387C, 0x70F8, 0xE1F0);
  }

  /** The start value makes a zero byte in front of a message show. */
  lemma LeadingZeroShows(data: seq<bv8>)
    ensures Checksum([0] + data) != Checksum(data)
  {
    var c := StepN(Reg(), INIT, 8);
    PrependByte(INIT, 0, data);
    AlignedZero();
    XorZero(INIT);
    FirstZero();
    FeedsLinearly();
    StartShows(Reg(), MsbFirst, INIT, c, data);
  }

  lemma AlignedZero()
    ensures Aligned(0) == 0
  {}
}

/** As Crc32Standard, for CRC-8. */
module Crc8Standard {
  import opened BitRegister
  import opened ByteStream
  import opened ByteLists
  import opened LongDivision
  import opened Crc8

  function Polynomial(): seq<bool> {
    Generator(8, {8, 2, 1, 0})
  }

  function Bytes(c: bv8): seq<bv8> {
    [c]
  }

  /** w is 8. */
  predicate Wide(w: nat) {
    7 < w < 9
  }

  lemma BytesOut(c: bv8, w: nat)
    requires Wide(w)
    ensures OutBits(Reg(), c, w) == Bits(MsbFirst, Bytes(c))
    ensures RestN(Reg(), c, w) == 0
  {
    ByteOut(c);
    OneBits(c);
  }

  lemma OneBits(a: bv8)
    ensures Bits(MsbFirst, [a]) == ByteBits(MsbFirst, a)
  {
    assert [a][1..] == [];
    assert ByteBits(MsbFirst, a) + [] == ByteBits(MsbFirst, a);
  }

  // ---------------------------------------------------------------- the check value

  lemma Digit1(tail: seq<bv8>)
    ensures UpdateBits(0x0, [0x31] + tail) == UpdateBits(0x97, tail)
  {
    EightSteps(0x31, 0x62, 0xC4, 0x8F, 0x19, 0x32, 0x64, 0xC8, 0x97);
    PrependByte(0x0, 0x31, tail);
  }

  lemma Digit2(tail: seq<bv8>)
    ensures UpdateBits(0x97, [0x32] + tail) == UpdateBits(0x72, tail)
  {
    EightSteps(0xA5, 0x4D, 0x9A, 0x33, 0x66, 0xCC, 0x9F, 0x39, 0x72);
    PrependByte(0x97, 0x32, tail);
  }

  lemma Digit3(tail: seq<bv8>)
    ensures UpdateBits(0x72, [0x33] + tail) == UpdateBits(0xC0, tail)
  {
    EightSteps(0x41, 0x82, 0x3, 0x6, 0xC, 0x18, 0x30, 0x60, 0xC0);
    PrependByte(0x72, 0x33, tail);
  }

  lemma Digit4(tail: seq<bv8>)
    ensures UpdateBits(0xC0, [0x34] + tail) == UpdateBits(0xC2, tail)
  {
    EightSteps(0xF4, 0xEF, 0xD9, 0xB5, 0x6D, 0xDA, 0xB3, 0x61, 0xC2);
    PrependByte(0xC0, 0x34, tail);
  }

  lemma Digit5(tail: seq<bv8>)
    ensures UpdateBits(0xC2, [0x35] + tail) == UpdateBits(0xCB, tail)
  {
    EightSteps(0xF7, 0xE9, 0xD5, 0xAD, 0x5D, 0xBA, 0x73, 0xE6, 0xCB);
    PrependByte(0xC2, 0x35, tail);
  }

  lemma Digit6(tail: seq<bv8>)
    ensures UpdateBits(0xCB, [0x36] + tail) == UpdateBits(0xFD, tail)
  {
    EightSteps(0xFD, 0xFD, 0xFD, 0xFD, 0xFD, 0xFD, 0xFD, 0xFD, 0xFD);
    PrependByte(0xCB, 0x36, tail);
  }

  lemma Digit7(tail: seq<bv8>)
    ensures UpdateBits(0xFD, [0x37] + tail) == UpdateBits(0x78, tail)
  {
    EightSteps(0xCA, 0x93, 0x21, 0x42, 0x84, 0xF, 0x1E, 0x3C, 0x78);
    PrependByte(0xFD, 0x37, tail);
  }

  lemma Digit8(tail: seq<bv8>)
    ensures UpdateBits(0x78, [0x38] + tail) == UpdateBits(0xC7, tail)
  {
    EightSteps(0x40, 0x80, 0x7, 0xE, 0x1C, 0x38, 0x70, 0xE0, 0xC7);
    PrependByte(0x78, 0x38, tail);
  }

  lemma Digit9(tail: seq<bv8>)
    ensures UpdateBits(0xC7, [0x39] + tail) == UpdateBits(0xF4, tail)
  {
    EightSteps(0xFE, 0xFB, 0xF1, 0xE5, 0xCD, 0x9D, 0x3D, 0x7A, 0xF4);
    PrependByte(0xC7, 0x39, tail);
  }

  lemma FirstDigits(tail: seq<bv8>)
    ensures UpdateBits(0x0, [0x31, 0x32, 0x33, 0x34, 0x35] + tail) == UpdateBits(0xCB, tail)
  {
    var d5: seq<bv8> := [0x35] + tail;
    var d4: seq<bv8> := [0x34] + d5;
    var d3: seq<bv8> := [0x33] + d4;
    var d2: seq<bv8> := [0x32] + d3;
    Digit1(d2);
    Digit2(d3);
    Digit3(d4);
    Digit4(d5);
    Digit5(tail);
    Five(0x31, 0x32, 0x33, 0x34, 0x35, tail);
  }

  lemma LastDigits()
    ensures UpdateBits(0xCB, [0x36, 0x37, 0x38, 0x39]) == 0xF4
  {
    Digit6([0x37, 0x38, 0x39]);
    Digit7([0x38, 0x39]);
    Digit8([0x39]);
    Digit9([]);
    Four(0x36, 0x37, 0x38, 0x39);
  }

  /** The check value of the header, for the digits 1 to 9 in ASCII. */
  lemma CheckValue()
    ensures Checksum([0x31, 0x32, 0x33, 0x34, 0x35, 0x36, 0x37, 0x38, 0x39]) == 0xF4
  {
    FirstDigits([0x36, 0x37, 0x38, 0x39]);
    LastDigits();
    Nine(0x31, 0x32, 0x33, 0x34, 0x35, 0x36, 0x37, 0x38, 0x39);
  }

  // ---------------------------------------------------------------- the remainder

  lemma Octet07()
    ensures ByteBits(MsbFirst, 0x07) == [false, false, false, false, false, true, true, true]
  {
    HighToLow(0x07);
  }

  lemma Coefficients0()
    ensures Polynomial()[1..9] == [false, false, false, false, false, true, true, true]
  {}

  lemma TapsOut(taps: bv8, w: nat)
    requires taps == 0x7 && Wide(w)
    ensures OutBits(Reg(), taps, w) == Polynomial()[1..]
  {
    BytesOut(taps, w);
    TapBytes();
    TapBits();
  }

  lemma TapBytes()
    ensures Bytes(0x7) == [0x07]
  {}

  lemma TapBits()
    ensures Bits(MsbFirst, [0x07]) == Polynomial()[1..]
  {
    OneBits(0x07);
    Octet07();
    Coefficients0();
    Pieces(Polynomial());
  }

  lemma Pieces(p: seq<bool>)
    requires |p| == 9
    ensures p[1..] == p[1..9]
  {}

  lemma TakeStep(c: bv8)
    ensures Step(c) == if Out(c) then Xor(Rest(c), 0x07) else Rest(c)
  {}

  lemma OutAdds(a: bv8, b: bv8)
    ensures Out(Xor(a, b)) == (Out(a) != Out(b))
  {}

  lemma RestAdds(a: bv8, b: bv8)
    ensures Rest(Xor(a, b)) == Xor(Rest(a), Rest(b))
  {}

  lemma InjectOut(bit: bool)
    ensures Out(Inject(bit)) == bit && Rest(Inject(bit)) == 0
  {}

  lemma AddsOut()
    ensures OutAdditive(Reg())
  {
    var reg := Reg();
    forall a, b {:trigger reg.out(reg.xor(a, b))}
      ensures reg.out(reg.xor(a, b)) == (reg.out(a) != reg.out(b))
    {
      RegOut(a, b);
    }
  }

  lemma OutIs(v: bv8)
    ensures Reg().out(v) == Out(v)
  {}

  lemma OutOf(a: bv8, b: bv8, c: bv8)
    requires c == Xor(a, b)
    ensures Reg().out(c) == (Reg().out(a) != Reg().out(b))
  {
    OutIs(a);
    OutIs(b);
    OutIs(c);
    OutAdds(a, b);
  }

  lemma RegOut(a: bv8, b: bv8)
    ensures Reg().out(Reg().xor(a, b)) == (Reg().out(a) != Reg().out(b))
  {
    assert Reg().xor(a, b) == Xor(a, b);
    OutOf(a, b, Xor(a, b));
  }

  lemma RegRest(a: bv8, b: bv8)
    ensures Reg().rest(Reg().xor(a, b)) == Reg().xor(Reg().rest(a), Reg().rest(b))
  {
    RestAdds(a, b);
  }

  lemma AddsRest()
    ensures RestAdditive(Reg())
  {
    var reg := Reg();
    forall a, b {:trigger reg.rest(reg.xor(a, b))}
      ensures reg.rest(reg.xor(a, b)) == reg.xor(reg.rest(a), reg.rest(b))
    {
      RegRest(a, b);
    }
  }

  lemma IsTakingOff()
    ensures TakesOff(Reg(), 0x07)
  {
    var reg := Reg();
    forall c
      ensures reg.step(c) == if reg.out(c) then reg.xor(reg.rest(c), 0x07) else reg.rest(c)
    {
      TakeStep(c);
    }
  }

  lemma IsInjecting()
    ensures InjectsFirst(Reg())
  {
    var reg := Reg();
    forall bit
      ensures reg.out(reg.inject(bit)) == bit && reg.rest(reg.inject(bit)) == reg.zero
    {
      InjectOut(bit);
    }
    forall c
      ensures reg.xor(c, reg.zero) == c
    {
      XorZero(c);
    }
  }

  lemma IsEmptying(w: nat)
    requires Wide(w)
    ensures Empties(Reg(), w)
  {
    forall c
      ensures RestN(Reg(), c, w) == Reg().zero
    {
      BytesOut(c, w);
    }
  }

  lemma IsFeedback(taps: bv8, w: nat)
    requires taps == 0x07 && Wide(w)
    ensures Feedback(Reg(), w, Polynomial(), taps)
  {
    TapsOut(taps, w);
    AddsOut();
    AddsRest();
    IsTakingOff();
    IsInjecting();
    IsEmptying(w);
  }

  lemma ZeroBits(w: nat)
    requires Wide(w)
    ensures forall i :: 0 <= i < w ==> !OutBits(Reg(), 0, w)[i]
  {
    BytesOut(0, w);
    OneBits(0);
    HighToLow(0);
  }

  lemma RegisterRemainder(data: seq<bv8>, w: nat)
    requires Wide(w)
    ensures OutBits(Reg(), UpdateBits(0, data), w) == Remainder(Bits(MsbFirst, data) + Zeros(w), Polynomial())
  {
    var bits, taps: bv8 := Bits(MsbFirst, data), 0x07;
    IsFeedback(taps, w);
    RunDivides(Reg(), w, Polynomial(), taps, 0, bits);
    ZeroBits(w);
    ZerosKeep(bits + Zeros(w), OutBits(Reg(), 0, w));
  }

  /** The checksum, sent most significant bit first like the message, is the remainder that the message leaves. */
  lemma ChecksumIsRemainder(data: seq<bv8>)
    ensures Bits(MsbFirst, [Checksum(data)]) == Remainder(Bits(MsbFirst, data) + Zeros(8), Polynomial())
  {
    assert Wide(8);
    var w: nat :| Wide(w);
    RegisterRemainder(data, w);
    BytesOut(Checksum(data), w);
  }

  /** With the start value 0 a zero byte in front of a message does not show. */
  lemma LeadingZeroHidden(data: seq<bv8>)
    ensures Checksum([0] + data) == Checksum(data)
  {
    PrependByte(INIT, 0, data);
    EightSteps(0, 0, 0, 0, 0, 0, 0, 0, 0);
  }
}
