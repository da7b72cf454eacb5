/** CRC-32/ISO-HDLC (components/embediq_crc/embediq_crc.c): reflected polynomial 0xEDB88320,
    initial value and final exclusive-or 0xFFFFFFFF, least significant bit of a byte first.

    `Checksum` is the reference, one message bit at a time; `Engine` is the table-driven code. */
module Crc32 {
  import opened BitRegister
  import opened ByteStream

  const INIT: bv32 := 0xFFFF_FFFF

  function Xor(a: bv32, b: bv32): bv32 { a ^ b }

  function Step(c: bv32): bv32 {
    if c & 1 == 1 then 0xEDB8_8320 ^ (c >> 1) else c >> 1
  }

  function Inject(bit: bool): bv32 {
    if bit then 1 else 0
  }

  predicate Out(v: bv32) {
    v & 1 == 1
  }

  function Rest(v: bv32): bv32 {
    v >> 1
  }

  /** The k lowest bits set. */
  function Mask(k: nat): bv32 {
    if k == 0 then 0 else (Mask(k - 1) << 1) | 1
  }

  predicate Inside(r: bv32, m: bv32) {
    r & !m == 0
  }

  predicate Low(r: bv32, k: nat) {
    Inside(r, Mask(k))
  }

  function Reg(): Register<bv32> {
    Register(0, Xor, Step, Inject, Out, Rest, Low)
  }

  function UpdateBits(c: bv32, data: seq<bv8>): bv32 {
    Update(Reg(), LsbFirst, c, data)
  }

  function Checksum(data: seq<bv8>): bv32 {
    UpdateBits(INIT, data) ^ 0xFFFF_FFFF
  }

  // ---------------------------------------------------------------- register laws

  lemma XorComm(a: bv32, b: bv32)
    ensures Xor(a, b) == Xor(b, a)
  {}

  lemma XorAssoc(a: bv32, b: bv32, c: bv32)
    ensures Xor(Xor(a, b), c) == Xor(a, Xor(b, c))
  {}

  lemma XorZero(a: bv32)
    ensures Xor(a, 0) == a && Xor(a, a) == 0
  {}

  lemma XorEqual(a: bv32, b: bv32)
    requires Xor(a, b) == 0
    ensures a == b
  {}

  lemma IsXorGroup()
    ensures XorGroup(Reg())
  {
    forall a, b ensures Xor(a, b) == Xor(b, a) { XorComm(a, b); }
    forall a, b, c ensures Xor(Xor(a, b), c) == Xor(a, Xor(b, c)) { XorAssoc(a, b, c); }
    forall a ensures Xor(a, 0) == a { XorZero(a); }
    forall a, b ensures Xor(a, b) == 0 <==> a == b {
      if Xor(a, b) == 0 { XorEqual(a, b); }
      XorZero(a);
    }
  }

  lemma XorShift(p: bv32, x: bv32, y: bv32)
    ensures (p ^ x) ^ (p ^ y) == x ^ y
    ensures (p ^ x) ^ y == p ^ (x ^ y)
    ensures x ^ (p ^ y) == p ^ (x ^ y)
  {}

  lemma LowBitXor(a: bv32, b: bv32)
    ensures a & 1 == 0 || a & 1 == 1
    ensures b & 1 == 0 || b & 1 == 1
    ensures (a ^ b) >> 1 == (a >> 1) ^ (b >> 1)
    ensures (a ^ b) & 1 == (a & 1) ^ (b & 1)
  {}

  lemma StepLinear(a: bv32, b: bv32)
    ensures Step(Xor(a, b)) == Xor(Step(a), Step(b))
  {
    LowBitXor(a, b);
    XorShift(0xEDB8_8320, a >> 1, b >> 1);
  }

  lemma StepInjective(r: bv32)
    ensures Step(r) == 0 ==> r == 0
  {}

  lemma IsLinearStep()
    ensures LinearStep(Reg())
  {
    forall a, b ensures Step(Xor(a, b)) == Xor(Step(a), Step(b)) { StepLinear(a, b); }
    forall p, q ensures Inject(p != q) == Xor(Inject(p), Inject(q)) {}
    forall r ensures Step(r) == 0 ==> r == 0 { StepInjective(r); }
  }

  lemma SplitWord(v: bv32)
    ensures v == Xor(Inject(Out(v)), Rest(v) << 1)
    ensures (Rest(v) << 1) & 1 == 0
    ensures (Rest(v) << 1) >> 1 == Rest(v)
  {}

  lemma StepClear(c: bv32)
    ensures c & 1 == 0 ==> Step(c) == c >> 1
  {}

  lemma FeedShift(c: bv32, v: bv32)
    ensures Step(Xor(c, v)) == Xor(Step(Xor(c, Inject(Out(v)))), Rest(v))
  {
    SplitWord(v);
    XorAssoc(c, Inject(Out(v)), Rest(v) << 1);
    StepLinear(Xor(c, Inject(Out(v))), Rest(v) << 1);
    StepClear(Rest(v) << 1);
  }

  lemma DoesShift()
    ensures Shifts(Reg())
  {
    var reg := Reg();
    forall c, v
      ensures reg.step(reg.xor(c, v)) == reg.xor(reg.Feed(c, reg.out(v)), reg.rest(v))
    {
      FeedShift(c, v);
    }
  }

  lemma MaskShift(m: bv32, n: bv32)
    requires Inside(m, n)
    ensures Inside((m << 1) | 1, (n << 1) | 1)
  {}

  lemma InsideTrans(l: bv32, m: bv32, n: bv32)
    requires Inside(l, m) && Inside(m, n)
    ensures Inside(l, n)
  {}

  lemma InsideSelf(m: bv32)
    ensures Inside(m, m) && Inside(0, m) && (Inside(m, 0) <==> m == 0)
  {}

  lemma {:induction false} MaskGrows(k: nat)
    ensures Inside(Mask(k), Mask(k + 1))
  {
    if k == 0 {
      InsideSelf(Mask(1));
    } else {
      MaskGrows(k - 1);
      MaskShift(Mask(k - 1), Mask(k));
    }
  }

  lemma MaskTop()
    ensures Mask(31) == 0x7FFF_FFFF
  {
    assert Mask(4) == 0xF;
    assert Mask(8) == 0xFF;
    assert Mask(12) == 0xFFF;
    assert Mask(16) == 0xFFFF;
    assert Mask(20) == 0xF_FFFF;
    assert Mask(24) == 0xFF_FFFF;
    assert Mask(28) == 0xFFF_FFFF;
  }

  lemma {:induction false} MaskBelowTop(k: nat)
    requires k <= 31
    ensures Inside(Mask(k), 0x7FFF_FFFF)
    decreases 31 - k
  {
    if k == 31 {
      MaskTop();
      InsideSelf(Mask(31));
    } else {
      MaskBelowTop(k + 1);
      MaskGrows(k);
      InsideTrans(Mask(k), Mask(k + 1), 0x7FFF_FFFF);
    }
  }

  lemma StepUndone(r: bv32)
    requires Inside(Step(r), 0x7FFF_FFFF)
    ensures r == Step(r) << 1
  {}

  lemma ShiftInside(y: bv32, m: bv32)
    requires Inside(y, m)
    ensures Inside(y << 1, (m << 1) | 1)
  {}

  lemma StepLow(r: bv32, k: nat)
    requires k < 32 && Low(Step(r), k)
    ensures Low(r, k + 1)
  {
    MaskBelowTop(k);
    InsideTrans(Step(r), Mask(k), 0x7FFF_FFFF);
    StepUndone(r);
    ShiftInside(Step(r), Mask(k));
  }

  lemma InjectInside(r: bv32, m: bv32, bit: bool)
    requires Inside(r, (m << 1) | 1)
    ensures Inside(Xor(r, Inject(bit)), (m << 1) | 1)
  {}

  lemma TapIsHigh()
    ensures !Inside(Step(Inject(true)), 0x7FFF_FFFF)
  {}

  lemma IsWideStep()
    ensures WideStep(Reg(), 32)
  {
    forall r ensures Low(r, 0) <==> r == 0 { InsideSelf(r); }
    forall r, k: nat | k < 32 && Low(Step(r), k) ensures Low(r, k + 1) { StepLow(r, k); }
    forall r, k: nat, bit | 0 < k && Low(r, k) ensures Low(Xor(r, Inject(bit)), k) { InjectInside(r, Mask(k - 1), bit); }
    forall k: nat | k < 32 ensures !Low(Step(Inject(true)), k) {
      MaskBelowTop(k);
      TapIsHigh();
      if Low(Step(Inject(true)), k) { InsideTrans(Step(Inject(true)), Mask(k), 0x7FFF_FFFF); }
    }
  }

  lemma FeedsLinearly()
    ensures LinearFeed(Reg())
  {
    IsXorGroup();
    IsLinearStep();
    FeedIsLinear(Reg());
  }

  lemma FeedsWide()
    ensures WideFeed(Reg(), 32)
  {
    IsXorGroup();
    IsWideStep();
    FeedIsWide(Reg(), 32);
  }

  // ---------------------------------------------------------------- burst detection

  lemma FinalInjective(a: bv32, b: bv32)
    ensures a ^ 0xFFFF_FFFF == b ^ 0xFFFF_FFFF ==> a == b
  {}

  /** Two messages that differ only within 32 consecutive bits have different checksums. */
  lemma BurstDetected(a: seq<bv8>, b: seq<bv8>, start: nat)
    requires BurstError(LsbFirst, a, b, start, 32)
    ensures Checksum(a) != Checksum(b)
  {
    FeedsLinearly();
    FeedsWide();
    BitRegister.BurstDetected(Reg(), 32, INIT, Bits(LsbFirst, a), Bits(LsbFirst, b), start);
    FinalInjective(UpdateBits(INIT, a), UpdateBits(INIT, b));
  }

  // ---------------------------------------------------------------- the table

  /** The counter of the table builder after i increments. */
  function Word(i: nat): bv32 {
    if i == 0 then 0 else Word(i - 1) + 1
  }

  function Entry(i: int): bv32
    requires 0 <= i < 256
  {
    StepN(Reg(), Word(i), 8)
  }

  function Index(z: bv32): (i: int)
    ensures 0 <= i < 256
  {
    ((z & 0xFF) as bv8) as int
  }

  lemma ByteCounts(v: bv8)
    ensures v != 0 ==> (v - 1) as int == v as int - 1
  {}

  lemma WideCounts(v: bv8)
    ensures v != 0 ==> v as bv32 == (v - 1) as bv32 + 1
  {}

  lemma {:induction false} WordOfByte(v: bv8)
    ensures Word(v as int) == v as bv32
    decreases v as int
  {
    if v != 0 {
      ByteCounts(v);
      WideCounts(v);
      WordOfByte(v - 1);
    }
  }

  lemma LowByte(z: bv32)
    ensures ((z & 0xFF) as bv8) as bv32 == z & 0xFF
  {}

  lemma WordIndex(z: bv32)
    ensures Word(Index(z)) == z & 0xFF
  {
    WordOfByte((z & 0xFF) as bv8);
    LowByte(z);
  }

  lemma ShiftTwice(v: bv32)
    ensures (v >> 1) >> 1 == v >> 2 && (v >> 2) >> 1 == v >> 3 && (v >> 3) >> 1 == v >> 4
    ensures (v >> 4) >> 1 == v >> 5 && (v >> 5) >> 1 == v >> 6 && (v >> 6) >> 1 == v >> 7
    ensures (v >> 7) >> 1 == v >> 8
  {}

  lemma WordBits(v: bv32)
    ensures OutBits(Reg(), v, 8) == [Out(v), Out(v >> 1), Out(v >> 2), Out(v >> 3),
                                     Out(v >> 4), Out(v >> 5), Out(v >> 6), Out(v >> 7)]
    ensures RestN(Reg(), v, 8) == v >> 8
  {
    ShiftTwice(v);
    OutBits8(Reg(), v, v >> 1, v >> 2, v >> 3, v >> 4, v >> 5, v >> 6, v >> 7);
  }

  lemma WidenedBits(b: bv8)
    ensures (b as bv32) >> 8 == 0
    ensures Out(b as bv32) == (b & 1 == 1)
    ensures Out((b as bv32) >> 1) == ((b >> 1) & 1 == 1)
    ensures Out((b as bv32) >> 2) == ((b >> 2) & 1 == 1)
    ensures Out((b as bv32) >> 3) == ((b >> 3) & 1 == 1)
    ensures Out((b as bv32) >> 4) == ((b >> 4) & 1 == 1)
    ensures Out((b as bv32) >> 5) == ((b >> 5) & 1 == 1)
    ensures Out((b as bv32) >> 6) == ((b >> 6) & 1 == 1)
    ensures Out((b as bv32) >> 7) == ((b >> 7) & 1 == 1)
  {}

  lemma ByteOut(b: bv8)
    ensures OutBits(Reg(), b as bv32, 8) == ByteBits(LsbFirst, b)
    ensures RestN(Reg(), b as bv32, 8) == 0
  {
    WordBits(b as bv32);
    WidenedBits(b);
  }

  function Kept(z: bv32): bv32 {
    (z >> 8) << 8
  }

  lemma KeptLow(z: bv32)
    ensures !Out(Kept(z)) && !Out(Kept(z) >> 1) && !Out(Kept(z) >> 2) && !Out(Kept(z) >> 3)
  {}

  lemma KeptMid(z: bv32)
    ensures !Out(Kept(z) >> 4) && !Out(Kept(z) >> 5) && !Out(Kept(z) >> 6) && !Out(Kept(z) >> 7)
  {}

  lemma KeptHigh(z: bv32)
    ensures Kept(z) >> 8 == z >> 8
  {}

  lemma KeptXor(z: bv32)
    ensures z == Xor(Kept(z), z & 0xFF)
  {}

  lemma KeptOut(z: bv32)
    ensures AllClear(OutBits(Reg(), Kept(z), 8))
    ensures RestN(Reg(), Kept(z), 8) == z >> 8
  {
    WordBits(Kept(z));
    KeptLow(z);
    KeptMid(z);
    KeptHigh(z);
  }

  lemma ByteAbove(c: bv32, b: bv8)
    ensures Xor(c, b as bv32) >> 8 == c >> 8
  {}

  lemma LookupWord(c: bv32, v: bv32, kept: bv32, looked: bv32)
    requires Xor(c, v) == Xor(kept, looked)
    requires AllClear(OutBits(Reg(), kept, 8)) && RestN(Reg(), v, 8) == 0
    ensures Run(Reg(), c, OutBits(Reg(), v, 8)) == Xor(RestN(Reg(), kept, 8), StepN(Reg(), looked, 8))
  {
    IsXorGroup();
    IsLinearStep();
    DoesShift();
    TableStep(Reg(), c, v, kept, looked);
  }

  /** One table look-up does what feeding the eight bits of the byte does. */
  lemma Lookup(c: bv32, b: bv8)
    ensures Xor(c >> 8, Entry(Index(Xor(c, b as bv32)))) == Run(Reg(), c, ByteBits(LsbFirst, b))
  {
    var v := b as bv32;
    var z := Xor(c, v);
    ByteOut(b);
    KeptOut(z);
    KeptXor(z);
    LookupWord(c, v, Kept(z), z & 0xFF);
    WordIndex(z);
    ByteAbove(c, b);
  }

  lemma FeedByte(c: bv32, b: bv8)
    ensures Run(Reg(), c, ByteBits(LsbFirst, b)) == StepN(Reg(), Xor(c, b as bv32), 8)
  {
    IsXorGroup();
    DoesShift();
    ByteOut(b);
    FeedWord(Reg(), c, b as bv32, 8);
  }

  lemma EightSteps(r0: bv32, r1: bv32, r2: bv32, r3: bv32, r4: bv32, r5: bv32, r6: bv32, r7: bv32, r8: bv32)
    requires Step(r0) == r1 && Step(r1) == r2 && Step(r2) == r3 && Step(r3) == r4
    requires Step(r4) == r5 && Step(r5) == r6 && Step(r6) == r7 && Step(r7) == r8
    ensures StepN(Reg(), r0, 8) == r8
  {
    assert StepN(Reg(), r6, 2) == r8;
    assert StepN(Reg(), r4, 4) == StepN(Reg(), r6, 2);
    assert StepN(Reg(), r2, 6) == StepN(Reg(), r4, 4);
    assert StepN(Reg(), r0, 8) == StepN(Reg(), r2, 6);
  }

  lemma PrependByte(c: bv32, b: bv8, tail: seq<bv8>)
    ensures UpdateBits(c, [b] + tail) == UpdateBits(StepN(Reg(), Xor(c, b as bv32), 8), tail)
  {
    var m := [b] + tail;
    FeedByte(c, b);
    UpdateStep(Reg(), LsbFirst, c, m, 0);
    assert m[0..] == m && m[1..] == tail;
  }

  lemma Pattern4()
    ensures UpdateBits(0x1, [0x01]) == 0
  {
    EightSteps(0x0, 0x0, 0x0, 0x0, 0x0, 0x0, 0x0, 0x0, 0x0);
    PrependByte(0x1, 0x01, []);
    assert [0x01 as bv8] + [] == [0x01];
  }

  lemma Pattern3()
    ensures UpdateBits(0x1DB, [0xDB, 0x01]) == 0
  {
    EightSteps(0x100, 0x80, 0x40, 0x20, 0x10, 0x8, 0x4, 0x2, 0x1);
    Pattern4();
    PrependByte(0x1DB, 0xDB, [0x01]);
    assert [0xDB as bv8] + [0x01] == [0xDB, 0x01];
  }

  lemma Pattern2()
    ensures UpdateBits(0x1DB71, [0x71, 0xDB, 0x01]) == 0
  {
    EightSteps(0x1DB00, 0xED80, 0x76C0, 0x3B60, 0x1DB0, 0xED8, 0x76C, 0x3B6, 0x1DB);
    Pattern3();
    PrependByte(0x1DB71, 0x71, [0xDB, 0x01]);
    assert [0x71 as bv8] + [0xDB, 0x01] == [0x71, 0xDB, 0x01];
  }

  lemma Pattern1()
    ensures UpdateBits(0x1DB7106, [0x06, 0x71, 0xDB, 0x01]) == 0
  {
    EightSteps(0x1DB7100, 0xEDB880, 0x76DC40, 0x3B6E20, 0x1DB710, 0xEDB88, 0x76DC4, 0x3B6E2, 0x1DB71);
    Pattern2();
    PrependByte(0x1DB7106, 0x06, [0x71, 0xDB, 0x01]);
    assert [0x06 as bv8] + [0x71, 0xDB, 0x01] == [0x06, 0x71, 0xDB, 0x01];
  }

  lemma Pattern0()
    ensures UpdateBits(0x0, [0x41, 0x06, 0x71, 0xDB, 0x01]) == 0
  {
    EightSteps(0x41, 0xEDB88300, 0x76DC4180, 0x3B6E20C0, 0x1DB71060, 0xEDB8830, 0x76DC418, 0x3B6E20C, 0x1DB7106);
    Pattern1();
    PrependByte(0x0, 0x41, [0x06, 0x71, 0xDB, 0x01]);
    assert [0x41 as bv8] + [0x06, 0x71, 0xDB, 0x01] == [0x41, 0x06, 0x71, 0xDB, 0x01];
  }

  lemma PatternLength()
    ensures BurstError(LsbFirst, [0, 0, 0, 0, 0], [0x41, 0x06, 0x71, 0xDB, 0x01], 0, 33)
  {
    var a: seq<bv8>, b: seq<bv8> := [0, 0, 0, 0, 0], [0x41, 0x06, 0x71, 0xDB, 0x01];
    BytesDiffer(LsbFirst, a, b);
    BitsAt(LsbFirst, a, 4);
    BitsAt(LsbFirst, b, 4);
    assert ByteBits(LsbFirst, a[4])[1..] == ByteBits(LsbFirst, b[4])[1..];
    var x, y := Bits(LsbFirst, a), Bits(LsbFirst, b);
    forall k | 33 <= k < 40 ensures x[k] == y[k] {
      assert x[k] == ByteBits(LsbFirst, a[4])[1..][k - 33];
      assert y[k] == ByteBits(LsbFirst, b[4])[1..][k - 33];
    }
  }

  lemma PatternHidden(a: seq<bv8>, b: seq<bv8>)
    requires |a| == |b| && AllClear(Bits(LsbFirst, a)) && UpdateBits(0, b) == 0
    ensures Checksum(a) == Checksum(b)
  {
    FeedsLinearly();
    DifferenceHidden(Reg(), INIT, Bits(LsbFirst, a), Bits(LsbFirst, b));
  }

  /** The bound is tight: some difference spread over 33 consecutive bits goes unnoticed. */
  lemma BurstBoundTight()
    ensures exists a, b :: BurstError(LsbFirst, a, b, 0, 33) && Checksum(a) == Checksum(b)
  {
    var a, b := Pattern();
    PatternHidden(a, b);
  }

  lemma Pattern() returns (a: seq<bv8>, b: seq<bv8>)
    ensures BurstError(LsbFirst, a, b, 0, 33) && AllClear(Bits(LsbFirst, a)) && UpdateBits(0, b) == 0
  {
    a, b := [0, 0, 0, 0, 0], [0x41, 0x06, 0x71, 0xDB, 0x01];
    PatternLength();
    Pattern0();
    ZeroBits();
  }

  lemma ZeroBits()
    ensures AllClear(Bits(LsbFirst, [0, 0, 0, 0, 0]))
  {
    var a: seq<bv8> := [0, 0, 0, 0, 0];
    forall k | 0 <= k < 40 ensures !Bits(LsbFirst, a)[k] {
      BitsAt(LsbFirst, a, k / 8);
      assert Bits(LsbFirst, a)[k] == ByteBits(LsbFirst, a[k / 8])[k % 8];
    }
  }

  class Engine {
    const table: array<bv32>
    var ready: bool

    ghost predicate Valid()
      reads this, table
    {
      && table.Length == 256
      && (ready ==> forall i :: 0 <= i < 256 ==> table[i] == Entry(i))
    }

    constructor ()
      ensures Valid() && !ready && fresh(table)
    {
      table := new bv32[256];
      ready := false;
    }

    method BuildEntry(word: bv32) returns (crc: bv32)
      ensures crc == StepN(Reg(), word, 8)
    {
      crc := word;
      for j := 0 to 8
        invariant StepN(Reg(), crc, 8 - j) == StepN(Reg(), word, 8)
      {
        crc := if crc & 1 == 1 then 0xEDB8_8320 ^ (crc >> 1) else crc >> 1;
      }
    }

    method Build()
      requires Valid()
      modifies this, table
      ensures Valid() && ready
    {
      var word: bv32 := 0;
      for i := 0 to 256
        invariant word == Word(i)
        invariant forall k :: 0 <= k < i ==> table[k] == Entry(k)
      {
        table[i] := BuildEntry(word);
        word := word + 1;
      }
      ready := true;
    }

    method Init() returns (crc: bv32)
      requires Valid()
      modifies this, table
      ensures Valid() && ready
      ensures crc == INIT
    {
      if !ready { Build(); }
      crc := 0xFFFF_FFFF;
    }

    method Feed(start: bv32, data: seq<bv8>) returns (crc: bv32)
      requires Valid()
      modifies this, table
      ensures Valid() && ready
      ensures crc == UpdateBits(start, data)
    {
      crc := start;
      if !ready { Build(); }
      for i := 0 to |data|
        invariant Valid() && ready
        invariant UpdateBits(crc, data[i..]) == UpdateBits(start, data)
      {
        Lookup(crc, data[i]);
        UpdateStep(Reg(), LsbFirst, crc, data, i);
        crc := Xor(crc >> 8, table[Index(Xor(crc, data[i] as bv32))]);
      }
    }

    method Final(crc: bv32) returns (r: bv32)
      ensures r == crc ^ 0xFFFF_FFFF
    {
      r := crc ^ 0xFFFF_FFFF;
    }

    method OneShot(data: seq<bv8>) returns (crc: bv32)
      requires Valid()
      modifies this, table
      ensures Valid() && ready
      ensures crc == Checksum(data)
    {
      crc := Init();
      crc := Feed(crc, data);
      crc := Final(crc);
    }
  }
}
