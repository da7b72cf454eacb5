/** CRC-16/CCITT-FALSE (components/embediq_crc/embediq_crc.c): polynomial 0x1021, initial value
    0xFFFF, no final exclusive-or, most significant bit of a byte first. */
module Crc16 {
  import opened BitRegister
  import opened ByteStream

  const INIT: bv16 := 0xFFFF

  function Xor(a: bv16, b: bv16): bv16 { a ^ b }

  function Step(c: bv16): bv16 {
    if c & 0x8000 != 0 then (c << 1) ^ 0x1021 else c << 1
  }

  function Inject(bit: bool): bv16 {
    if bit then 0x8000 else 0
  }

  predicate Out(v: bv16) {
    v & 0x8000 != 0
  }

  function Rest(v: bv16): bv16 {
    v << 1
  }

  /** The k highest bits set. */
  function Mask(k: nat): bv16 {
    if k == 0 then 0 else (Mask(k - 1) >> 1) | 0x8000
  }

  predicate Inside(r: bv16, m: bv16) {
    r & !m == 0
  }

  predicate Low(r: bv16, k: nat) {
    Inside(r, Mask(k))
  }

  function Reg(): Register<bv16> {
    Register(0, Xor, Step, Inject, Out, Rest, Low)
  }

  function UpdateBits(c: bv16, data: seq<bv8>): bv16 {
    Update(Reg(), MsbFirst, c, data)
  }

  function Checksum(data: seq<bv8>): bv16 {
    UpdateBits(INIT, data)
  }

  // ---------------------------------------------------------------- register laws

  lemma XorComm(a: bv16, b: bv16)
    ensures Xor(a, b) == Xor(b, a)
  {}

  lemma XorAssoc(a: bv16, b: bv16, c: bv16)
    ensures Xor(Xor(a, b), c) == Xor(a, Xor(b, c))
  {}

  lemma XorZero(a: bv16)
    ensures Xor(a, 0) == a && Xor(a, a) == 0
  {}

  lemma XorEqual(a: bv16, b: bv16)
    requires Xor(a, b) == 0
    ensures a == b
  {}

  lemma IsXorGroup()
    ensures XorGroup(Reg())
  {
    forall a, b ensures Xor(a, b) == Xor(b, a) { XorComm(a, b); }
    forall a, b, c ensures Xor(Xor(a, b), c) == Xor(a, Xor(b, c)) { XorAssoc(a, b, c); }
    forall a ensures Xor(a, 0) == a { XorZero(a); }
    forall a, b ensures Xor(a, b) == 0 <==> a == b {
      if Xor(a, b) == 0 { XorEqual(a, b); }
      XorZero(a);
    }
  }

  lemma XorShift(p: bv16, x: bv16, y: bv16)
    ensures (x ^ p) ^ (y ^ p) == x ^ y
    ensures (x ^ p) ^ y == (x ^ y) ^ p
    ensures x ^ (y ^ p) == (x ^ y) ^ p
  {}

  lemma TopBitXor(a: bv16, b: bv16)
    ensures (a ^ b) << 1 == (a << 1) ^ (b << 1)
    ensures a & 0x8000 == 0 || a & 0x8000 == 0x8000
    ensures b & 0x8000 == 0 || b & 0x8000 == 0x8000
    ensures (a ^ b) & 0x8000 == (a & 0x8000) ^ (b & 0x8000)
  {}

  lemma StepLinear(a: bv16, b: bv16)
    ensures Step(Xor(a, b)) == Xor(Step(a), Step(b))
  {
    TopBitXor(a, b);
    XorShift(0x1021, a << 1, b << 1);
  }

  lemma StepInjective(r: bv16)
    ensures Step(r) == 0 ==> r == 0
  {}

  lemma IsLinearStep()
    ensures LinearStep(Reg())
  {
    forall a, b ensures Step(Xor(a, b)) == Xor(Step(a), Step(b)) { StepLinear(a, b); }
    forall p, q ensures Inject(p != q) == Xor(Inject(p), Inject(q)) {}
    forall r ensures Step(r) == 0 ==> r == 0 { StepInjective(r); }
  }

  lemma SplitSet(v: bv16)
    requires v & 0x8000 != 0
    ensures v == 0x8000 ^ ((v << 1) >> 1)
  {}

  lemma SplitClear(v: bv16)
    requires v & 0x8000 == 0
    ensures v == 0 ^ ((v << 1) >> 1)
  {}

  lemma SplitWord(v: bv16)
    ensures v == Xor(Inject(Out(v)), Rest(v) >> 1)
  {
    if v & 0x8000 != 0 {
      SplitSet(v);
    } else {
      SplitClear(v);
    }
  }

  lemma RestClear(v: bv16)
    ensures (Rest(v) >> 1) & 0x8000 == 0
    ensures (Rest(v) >> 1) << 1 == Rest(v)
  {}

  lemma StepClear(c: bv16)
    ensures c & 0x8000 == 0 ==> Step(c) == c << 1
  {}

  lemma FeedShift(c: bv16, v: bv16)
    ensures Step(Xor(c, v)) == Xor(Step(Xor(c, Inject(Out(v)))), Rest(v))
  {
    SplitWord(v);
    RestClear(v);
    XorAssoc(c, Inject(Out(v)), Rest(v) >> 1);
    StepLinear(Xor(c, Inject(Out(v))), Rest(v) >> 1);
    StepClear(Rest(v) >> 1);
  }

  lemma DoesShift()
    ensures Shifts(Reg())
  {
    var reg := Reg();
    forall c, v
      ensures reg.step(reg.xor(c, v)) == reg.xor(reg.Feed(c, reg.out(v)), reg.rest(v))
    {
      FeedShift(c, v);
    }
  }

  lemma MaskShift(m: bv16, n: bv16)
    requires Inside(m, n)
    ensures Inside((m >> 1) | 0x8000, (n >> 1) | 0x8000)
  {}

  lemma InsideTrans(l: bv16, m: bv16, n: bv16)
    requires Inside(l, m) && Inside(m, n)
    ensures Inside(l, n)
  {}

  lemma InsideSelf(m: bv16)
    ensures Inside(m, m) && Inside(0, m) && (Inside(m, 0) <==> m == 0)
  {}

  lemma {:induction false} MaskGrows(k: nat)
    ensures Inside(Mask(k), Mask(k + 1))
  {
    if k == 0 {
      InsideSelf(Mask(1));
    } else {
      MaskGrows(k - 1);
      MaskShift(Mask(k - 1), Mask(k));
    }
  }

  lemma MaskTop()
    ensures Mask(15) == 0xFFFE
  {
    assert Mask(4) == 0xF000;
    assert Mask(8) == 0xFF00;
    assert Mask(12) == 0xFFF0;
  }

  lemma {:induction false} MaskBelowTop(k: nat)
    requires k <= 15
    ensures Inside(Mask(k), 0xFFFE)
    decreases 15 - k
  {
    if k == 15 {
      MaskTop();
      InsideSelf(Mask(15));
    } else {
      MaskBelowTop(k + 1);
      MaskGrows(k);
      InsideTrans(Mask(k), Mask(k + 1), 0xFFFE);
    }
  }

  lemma StepUndone(r: bv16)
    requires Inside(Step(r), 0xFFFE)
    ensures r == Step(r) >> 1
  {}

  lemma ShiftInside(y: bv16, m: bv16)
    requires Inside(y, m)
    ensures Inside(y >> 1, (m >> 1) | 0x8000)
  {}

  lemma StepLow(r: bv16, k: nat)
    requires k < 16 && Low(Step(r), k)
    ensures Low(r, k + 1)
  {
    MaskBelowTop(k);
    InsideTrans(Step(r), Mask(k), 0xFFFE);
    StepUndone(r);
    ShiftInside(Step(r), Mask(k));
  }

  lemma InjectInside(r: bv16, m: bv16, bit: bool)
    requires Inside(r, (m >> 1) | 0x8000)
    ensures Inside(Xor(r, Inject(bit)), (m >> 1) | 0x8000)
  {}

  lemma TapIsHigh()
    ensures !Inside(Step(Inject(true)), 0xFFFE)
  {}

  lemma IsWideStep()
    ensures WideStep(Reg(), 16)
  {
    forall r ensures Low(r, 0) <==> r == 0 { InsideSelf(r); }
    forall r, k: nat | k < 16 && Low(Step(r), k) ensures Low(r, k + 1) { StepLow(r, k); }
    forall r, k: nat, bit | 0 < k && Low(r, k) ensures Low(Xor(r, Inject(bit)), k) { InjectInside(r, Mask(k - 1), bit); }
    forall k: nat | k < 16 ensures !Low(Step(Inject(true)), k) {
      MaskBelowTop(k);
      TapIsHigh();
      if Low(Step(Inject(true)), k) { InsideTrans(Step(Inject(true)), Mask(k), 0xFFFE); }
    }
  }

  lemma FeedsLinearly()
    ensures LinearFeed(Reg())
  {
    IsXorGroup();
    IsLinearStep();
    FeedIsLinear(Reg());
  }

  lemma FeedsWide()
    ensures WideFeed(Reg(), 16)
  {
    IsXorGroup();
    IsWideStep();
    FeedIsWide(Reg(), 16);
  }

  // ---------------------------------------------------------------- burst detection

  /** Two messages that differ only within 16 consecutive bits have different checksums. */
  lemma BurstDetected(a: seq<bv8>, b: seq<bv8>, start: nat)
    requires BurstError(MsbFirst, a, b, start, 16)
    ensures Checksum(a) != Checksum(b)
  {
    FeedsLinearly();
    FeedsWide();
    BitRegister.BurstDetected(Reg(), 16, INIT, Bits(MsbFirst, a), Bits(MsbFirst, b), start);
  }

  // ---------------------------------------------------------------- the table

  /** The counter of the table builder after i increments. */
  function Word(i: nat): bv16 {
    if i == 0 then 0 else Word(i - 1) + 1
  }

  function High(w: bv16): bv16 {
    w << 8
  }

  function Entry(i: int): bv16
    requires 0 <= i < 256
  {
    StepN(Reg(), High(Word(i)), 8)
  }

  function Index(z: bv16): (i: int)
    ensures 0 <= i < 256
  {
    ((z & 0xFF) as bv8) as int
  }

  lemma ByteCounts(v: bv8)
    ensures v != 0 ==> (v - 1) as int == v as int - 1
  {}

  lemma WideCounts(v: bv8)
    ensures v != 0 ==> v as bv16 == (v - 1) as bv16 + 1
  {}

  lemma {:induction false} WordOfByte(v: bv8)
    ensures Word(v as int) == v as bv16
    decreases v as int
  {
    if v != 0 {
      ByteCounts(v);
      WideCounts(v);
      WordOfByte(v - 1);
    }
  }

  lemma LowByte(z: bv16)
    ensures ((z & 0xFF) as bv8) as bv16 == z & 0xFF
  {}

  lemma WordIndex(z: bv16)
    ensures Word(Index(z)) == z & 0xFF
  {
    WordOfByte((z & 0xFF) as bv8);
    LowByte(z);
  }

  lemma ShiftTwice(v: bv16)
    ensures (v << 1) << 1 == v << 2 && (v << 2) << 1 == v << 3 && (v << 3) << 1 == v << 4
    ensures (v << 4) << 1 == v << 5 && (v << 5) << 1 == v << 6 && (v << 6) << 1 == v << 7
    ensures (v << 7) << 1 == v << 8
  {}

  lemma WordBits(v: bv16)
    ensures OutBits(Reg(), v, 8) == [Out(v), Out(v << 1), Out(v << 2), Out(v << 3),
                                     Out(v << 4), Out(v << 5), Out(v << 6), Out(v << 7)]
    ensures RestN(Reg(), v, 8) == v << 8
  {
    ShiftTwice(v);
    OutBits8(Reg(), v, v << 1, v << 2, v << 3, v << 4, v << 5, v << 6, v << 7);
  }

  /** A message byte aligned with the bits that leave the register first. */
  function Aligned(b: bv8): bv16 {
    (b as bv16) << 8
  }

  lemma AlignedBits(b: bv8)
    ensures Aligned(b) << 8 == 0
    ensures Out(Aligned(b)) == ((b >> 7) & 1 == 1)
    ensures Out(Aligned(b) << 1) == ((b >> 6) & 1 == 1)
    ensures Out(Aligned(b) << 2) == ((b >> 5) & 1 == 1)
    ensures Out(Aligned(b) << 3) == ((b >> 4) & 1 == 1)
    ensures Out(Aligned(b) << 4) == ((b >> 3) & 1 == 1)
    ensures Out(Aligned(b) << 5) == ((b >> 2) & 1 == 1)
    ensures Out(Aligned(b) << 6) == ((b >> 1) & 1 == 1)
    ensures Out(Aligned(b) << 7) == (b & 1 == 1)
  {}

  lemma ByteOut(b: bv8)
    ensures OutBits(Reg(), Aligned(b), 8) == ByteBits(MsbFirst, b)
    ensures RestN(Reg(), Aligned(b), 8) == 0
  {
    WordBits(Aligned(b));
    AlignedBits(b);
    HighToLow(b);
  }

  function Kept(z: bv16): bv16 {
    z & 0xFF
  }

  lemma KeptClear(z: bv16)
    ensures !Out(Kept(z)) && !Out(Kept(z) << 1) && !Out(Kept(z) << 2) && !Out(Kept(z) << 3)
    ensures !Out(Kept(z) << 4) && !Out(Kept(z) << 5) && !Out(Kept(z) << 6) && !Out(Kept(z) << 7)
  {}

  lemma KeptOut(z: bv16)
    ensures AllClear(OutBits(Reg(), Kept(z), 8))
    ensures RestN(Reg(), Kept(z), 8) == Kept(z) << 8
  {
    WordBits(Kept(z));
    KeptClear(z);
  }

  lemma SplitBytes(c: bv16, v: bv16)
    requires v <= 0xFF
    ensures c ^ (v << 8) == (c & 0xFF) ^ ((((c >> 8) ^ v) & 0xFF) << 8)
  {}

  lemma ByteFits(b: bv8)
    ensures (b as bv16) <= 0xFF
  {}

  lemma Parts(c: bv16, b: bv8)
    ensures Xor(c, Aligned(b)) == Xor(Kept(c), (Xor(c >> 8, b as bv16) & 0xFF) << 8)
  {
    ByteFits(b);
    SplitBytes(c, b as bv16);
  }

  lemma KeptShift(c: bv16)
    ensures Kept(c) << 8 == c << 8
  {}

  lemma LookupWord(c: bv16, v: bv16, kept: bv16, looked: bv16)
    requires Xor(c, v) == Xor(kept, looked)
    requires AllClear(OutBits(Reg(), kept, 8)) && RestN(Reg(), v, 8) == 0
    ensures Run(Reg(), c, OutBits(Reg(), v, 8)) == Xor(RestN(Reg(), kept, 8), StepN(Reg(), looked, 8))
  {
    IsXorGroup();
    IsLinearStep();
    DoesShift();
    TableStep(Reg(), c, v, kept, looked);
  }

  /** One table look-up does what feeding the eight bits of the byte does. */
  lemma Lookup(c: bv16, b: bv8)
    ensures Xor(c << 8, Entry(Index(Xor(c >> 8, b as bv16)))) == Run(Reg(), c, ByteBits(MsbFirst, b))
  {
    var z := Xor(c >> 8, b as bv16);
    ByteOut(b);
    KeptOut(c);
    Parts(c, b);
    KeptShift(c);
    LookupWord(c, Aligned(b), Kept(c), High(z & 0xFF));
    WordIndex(z);
    Assemble(c << 8, Kept(c), z & 0xFF, Index(z), Run(Reg(), c, ByteBits(MsbFirst, b)));
  }

  lemma Assemble(shifted: bv16, kept: bv16, low: bv16, i: int, result: bv16)
    requires 0 <= i < 256 && Word(i) == low && RestN(Reg(), kept, 8) == shifted
    requires result == Xor(RestN(Reg(), kept, 8), StepN(Reg(), High(low), 8))
    ensures Xor(shifted, Entry(i)) == result
  {}

  lemma FeedByte(c: bv16, b: bv8)
    ensures Run(Reg(), c, ByteBits(MsbFirst, b)) == StepN(Reg(), Xor(c, Aligned(b)), 8)
  {
    IsXorGroup();
    DoesShift();
    ByteOut(b);
    FeedWord(Reg(), c, Aligned(b), 8);
  }

  lemma EightSteps(r0: bv16, r1: bv16, r2: bv16, r3: bv16, r4: bv16, r5: bv16, r6: bv16, r7: bv16, r8: bv16)
    requires Step(r0) == r1 && Step(r1) == r2 && Step(r2) == r3 && Step(r3) == r4
    requires Step(r4) == r5 && Step(r5) == r6 && Step(r6) == r7 && Step(r7) == r8
    ensures StepN(Reg(), r0, 8) == r8
  {
    assert StepN(Reg(), r6, 2) == r8;
    assert StepN(Reg(), r4, 4) == StepN(Reg(), r6, 2);
    assert StepN(Reg(), r2, 6) == StepN(Reg(), r4, 4);
    assert StepN(Reg(), r0, 8) == StepN(Reg(), r2, 6);
  }

  lemma PrependByte(c: bv16, b: bv8, tail: seq<bv8>)
    ensures UpdateBits(c, [b] + tail) == UpdateBits(StepN(Reg(), Xor(c, Aligned(b)), 8), tail)
  {
    var m := [b] + tail;
    FeedByte(c, b);
    UpdateStep(Reg(), MsbFirst, c, m, 0);
    assert m[0..] == m && m[1..] == tail;
  }

  lemma Pattern2()
    ensures UpdateBits(0x8000, [0x80]) == 0
  {
    EightSteps(0x0, 0x0, 0x0, 0x0, 0x0, 0x0, 0x0, 0x0, 0x0);
    PrependByte(0x8000, 0x80, []);
    assert [0x80 as bv8] + [] == [0x80];
  }

  lemma Pattern1()
    ensures UpdateBits(0x1080, [0x10, 0x80]) == 0
  {
    EightSteps(0x80, 0x100, 0x200, 0x400, 0x800, 0x1000, 0x2000, 0x4000, 0x8000);
    Pattern2();
    PrependByte(0x1080, 0x10, [0x80]);
    assert [0x10 as bv8] + [0x80] == [0x10, 0x80];
  }

  lemma Pattern0()
    ensures UpdateBits(0x0, [0x88, 0x10, 0x80]) == 0
  {
    EightSteps(0x8800, 0x21, 0x42, 0x84, 0x108, 0x210, 0x420, 0x840, 0x1080);
    Pattern1();
    PrependByte(0x0, 0x88, [0x10, 0x80]);
    assert [0x88 as bv8] + [0x10, 0x80] == [0x88, 0x10, 0x80];
  }

  lemma PatternLength()
    ensures BurstError(MsbFirst, [0, 0, 0], [0x88, 0x10, 0x80], 0, 17)
  {
    var a: seq<bv8>, b: seq<bv8> := [0, 0, 0], [0x88, 0x10, 0x80];
    BytesDiffer(MsbFirst, a, b);
    BitsAt(MsbFirst, a, 2);
    BitsAt(MsbFirst, b, 2);
    assert ByteBits(MsbFirst, a[2])[1..] == ByteBits(MsbFirst, b[2])[1..];
    var x, y := Bits(MsbFirst, a), Bits(MsbFirst, b);
    forall k | 17 <= k < 24 ensures x[k] == y[k] {
      assert x[k] == ByteBits(MsbFirst, a[2])[1..][k - 17];
      assert y[k] == ByteBits(MsbFirst, b[2])[1..][k - 17];
    }
  }

  lemma PatternHidden(a: seq<bv8>, b: seq<bv8>)
    requires |a| == |b| && AllClear(Bits(MsbFirst, a)) && UpdateBits(0, b) == 0
    ensures Checksum(a) == Checksum(b)
  {
    FeedsLinearly();
    DifferenceHidden(Reg(), INIT, Bits(MsbFirst, a), Bits(MsbFirst, b));
  }

  /** The bound is tight: some difference spread over 17 consecutive bits goes unnoticed. */
  lemma BurstBoundTight()
    ensures exists a, b :: BurstError(MsbFirst, a, b, 0, 17) && Checksum(a) == Checksum(b)
  {
    var a, b := Pattern();
    PatternHidden(a, b);
  }

  lemma Pattern() returns (a: seq<bv8>, b: seq<bv8>)
    ensures BurstError(MsbFirst, a, b, 0, 17) && AllClear(Bits(MsbFirst, a)) && UpdateBits(0, b) == 0
  {
    a, b := [0, 0, 0], [0x88, 0x10, 0x80];
    PatternLength();
    Pattern0();
    ZeroBits();
  }

  lemma ZeroBits()
    ensures AllClear(Bits(MsbFirst, [0, 0, 0]))
  {
    var a: seq<bv8> := [0, 0, 0];
    forall k | 0 <= k < 24 ensures !Bits(MsbFirst, a)[k] {
      BitsAt(MsbFirst, a, k / 8);
      assert Bits(MsbFirst, a)[k] == ByteBits(MsbFirst, a[k / 8])[k % 8];
    }
  }

  class Engine {
    const table: array<bv16>
    var ready: bool

    ghost predicate Valid()
      reads this, table
    {
      && table.Length == 256
      && (ready ==> forall i :: 0 <= i < 256 ==> table[i] == Entry(i))
    }

    constructor ()
      ensures Valid() && !ready && fresh(table)
    {
      table := new bv16[256];
      ready := false;
    }

    method BuildEntry(word: bv16) returns (crc: bv16)
      ensures crc == StepN(Reg(), word, 8)
    {
      crc := word;
      for j := 0 to 8
        invariant StepN(Reg(), crc, 8 - j) == StepN(Reg(), word, 8)
      {
        crc := if crc & 0x8000 != 0 then (crc << 1) ^ 0x1021 else crc << 1;
      }
    }

    method Build()
      requires Valid()
      modifies this, table
      ensures Valid() && ready
    {
      var word: bv16 := 0;
      for i := 0 to 256
        invariant word == Word(i)
        invariant forall k :: 0 <= k < i ==> table[k] == Entry(k)
      {
        table[i] := BuildEntry(High(word));
        word := word + 1;
      }
      ready := true;
    }

    method Init() returns (crc: bv16)
      requires Valid()
      modifies this, table
      ensures Valid() && ready
      ensures crc == INIT
    {
      if !ready { Build(); }
      crc := 0xFFFF;
    }

    method Feed(start: bv16, data: seq<bv8>) returns (crc: bv16)
      requires Valid()
      modifies this, table
      ensures Valid() && ready
      ensures crc == UpdateBits(start, data)
    {
      crc := start;
      if !ready { Build(); }
      for i := 0 to |data|
        invariant Valid() && ready
        invariant UpdateBits(crc, data[i..]) == UpdateBits(start, data)
      {
        Lookup(crc, data[i]);
        UpdateStep(Reg(), MsbFirst, crc, data, i);
        crc := Xor(crc << 8, table[Index(Xor(crc >> 8, data[i] as bv16))]);
      }
    }

    method Final(crc: bv16) returns (r: bv16)
      ensures r == crc
    {
      r := crc;
    }

    method OneShot(data: seq<bv8>) returns (crc: bv16)
      requires Valid()
      modifies this, table
      ensures Valid() && ready
      ensures crc == Checksum(data)
    {
      crc := Init();
      crc := Feed(crc, data);
      crc := Final(crc);
    }
  }
}
