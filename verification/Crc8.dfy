/** CRC-8 (components/embediq_crc/embediq_crc.c): polynomial 0x07, initial value 0, most
    significant bit of a byte first. */
module Crc8 {
  import opened BitRegister
  import opened ByteStream

  const INIT: bv8 := 0x00

  function Xor(a: bv8, b: bv8): bv8 { a ^ b }

  function Step(c: bv8): bv8 {
    if c & 0x80 != 0 then (c << 1) ^ 0x07 else c << 1
  }

  function Inject(bit: bool): bv8 {
    if bit then 0x80 else 0
  }

  predicate Out(v: bv8) {
    v & 0x80 != 0
  }

  function Rest(v: bv8): bv8 {
    v << 1
  }

  /** The k highest bits set. */
  function Mask(k: nat): bv8 {
    if k == 0 then 0 else (Mask(k - 1) >> 1) | 0x80
  }

  predicate Inside(r: bv8, m: bv8) {
    r & !m == 0
  }

  predicate Low(r: bv8, k: nat) {
    Inside(r, Mask(k))
  }

  function Reg(): Register<bv8> {
    Register(0, Xor, Step, Inject, Out, Rest, Low)
  }

  function UpdateBits(c: bv8, data: seq<bv8>): bv8 {
    Update(Reg(), MsbFirst, c, data)
  }

  function Checksum(data: seq<bv8>): bv8 {
    UpdateBits(INIT, data)
  }

  // ---------------------------------------------------------------- register laws

  lemma XorComm(a: bv8, b: bv8)
    ensures Xor(a, b) == Xor(b, a)
  {}

  lemma XorAssoc(a: bv8, b: bv8, c: bv8)
    ensures Xor(Xor(a, b), c) == Xor(a, Xor(b, c))
  {}

  lemma XorZero(a: bv8)
    ensures Xor(a, 0) == a && Xor(a, a) == 0
  {}

  lemma XorEqual(a: bv8, b: bv8)
    requires Xor(a, b) == 0
    ensures a == b
  {}

  lemma IsXorGroup()
    ensures XorGroup(Reg())
  {
    forall a, b ensures Xor(a, b) == Xor(b, a) { XorComm(a, b); }
    forall a, b, c ensures Xor(Xor(a, b), c) == Xor(a, Xor(b, c)) { XorAssoc(a, b, c); }
    forall a ensures Xor(a, 0) == a { XorZero(a); }
    forall a, b ensures Xor(a, b) == 0 <==> a == b {
      if Xor(a, b) == 0 { XorEqual(a, b); }
      XorZero(a);
    }
  }

  lemma XorShift(p: bv8, x: bv8, y: bv8)
    ensures (x ^ p) ^ (y ^ p) == x ^ y
    ensures (x ^ p) ^ y == (x ^ y) ^ p
    ensures x ^ (y ^ p) == (x ^ y) ^ p
  {}

  lemma TopBitXor(a: bv8, b: bv8)
    ensures (a ^ b) << 1 == (a << 1) ^ (b << 1)
    ensures a & 0x80 == 0 || a & 0x80 == 0x80
    ensures b & 0x80 == 0 || b & 0x80 == 0x80
    ensures (a ^ b) & 0x80 == (a & 0x80) ^ (b & 0x80)
  {}

  lemma StepLinear(a: bv8, b: bv8)
    ensures Step(Xor(a, b)) == Xor(Step(a), Step(b))
  {
    TopBitXor(a, b);
    XorShift(0x07, a << 1, b << 1);
  }

  lemma StepInjective(r: bv8)
    ensures Step(r) == 0 ==> r == 0
  {}

  lemma IsLinearStep()
    ensures LinearStep(Reg())
  {
    forall a, b ensures Step(Xor(a, b)) == Xor(Step(a), Step(b)) { StepLinear(a, b); }
    forall p, q ensures Inject(p != q) == Xor(Inject(p), Inject(q)) {}
    forall r ensures Step(r) == 0 ==> r == 0 { StepInjective(r); }
  }

  lemma SplitWord(v: bv8)
    ensures v == Xor(Inject(Out(v)), Rest(v) >> 1)
  {}

  lemma RestClear(v: bv8)
    ensures (Rest(v) >> 1) & 0x80 == 0
    ensures (Rest(v) >> 1) << 1 == Rest(v)
  {}

  lemma StepClear(c: bv8)
    ensures c & 0x80 == 0 ==> Step(c) == c << 1
  {}

  lemma FeedShift(c: bv8, v: bv8)
    ensures Step(Xor(c, v)) == Xor(Step(Xor(c, Inject(Out(v)))), Rest(v))
  {
    SplitWord(v);
    RestClear(v);
    XorAssoc(c, Inject(Out(v)), Rest(v) >> 1);
    StepLinear(Xor(c, Inject(Out(v))), Rest(v) >> 1);
    StepClear(Rest(v) >> 1);
  }

  lemma DoesShift()
    ensures Shifts(Reg())
  {
    var reg := Reg();
    forall c, v
      ensures reg.step(reg.xor(c, v)) == reg.xor(reg.Feed(c, reg.out(v)), reg.rest(v))
    {
      FeedShift(c, v);
    }
  }

  lemma MaskShift(m: bv8, n: bv8)
    requires Inside(m, n)
    ensures Inside((m >> 1) | 0x80, (n >> 1) | 0x80)
  {}

  lemma InsideTrans(l: bv8, m: bv8, n: bv8)
    requires Inside(l, m) && Inside(m, n)
    ensures Inside(l, n)
  {}

  lemma InsideSelf(m: bv8)
    ensures Inside(m, m) && Inside(0, m) && (Inside(m, 0) <==> m == 0)
  {}

  lemma {:induction false} MaskGrows(k: nat)
    ensures Inside(Mask(k), Mask(k + 1))
  {
    if k == 0 {
      InsideSelf(Mask(1));
    } else {
      MaskGrows(k - 1);
      MaskShift(Mask(k - 1), Mask(k));
    }
  }

  lemma MaskTop()
    ensures Mask(7) == 0xFE
  {
    assert Mask(4) == 0xF0;
  }

  lemma {:induction false} MaskBelowTop(k: nat)
    requires k <= 7
    ensures Inside(Mask(k), 0xFE)
    decreases 7 - k
  {
    if k == 7 {
      MaskTop();
      InsideSelf(Mask(7));
    } else {
      MaskBelowTop(k + 1);
      MaskGrows(k);
      InsideTrans(Mask(k), Mask(k + 1), 0xFE);
    }
  }

  lemma StepUndone(r: bv8)
    requires Inside(Step(r), 0xFE)
    ensures r == Step(r) >> 1
  {}

  lemma ShiftInside(y: bv8, m: bv8)
    requires Inside(y, m)
    ensures Inside(y >> 1, (m >> 1) | 0x80)
  {}

  lemma StepLow(r: bv8, k: nat)
    requires k < 8 && Low(Step(r), k)
    ensures Low(r, k + 1)
  {
    MaskBelowTop(k);
    InsideTrans(Step(r), Mask(k), 0xFE);
    StepUndone(r);
    ShiftInside(Step(r), Mask(k));
  }

  lemma InjectInside(r: bv8, m: bv8, bit: bool)
    requires Inside(r, (m >> 1) | 0x80)
    ensures Inside(Xor(r, Inject(bit)), (m >> 1) | 0x80)
  {}

  lemma TapIsHigh()
    ensures !Inside(Step(Inject(true)), 0xFE)
  {}

  lemma IsWideStep()
    ensures WideStep(Reg(), 8)
  {
    forall r ensures Low(r, 0) <==> r == 0 { InsideSelf(r); }
    forall r, k: nat | k < 8 && Low(Step(r), k) ensures Low(r, k + 1) { StepLow(r, k); }
    forall r, k: nat, bit | 0 < k && Low(r, k) ensures Low(Xor(r, Inject(bit)), k) { InjectInside(r, Mask(k - 1), bit); }
    forall k: nat | k < 8 ensures !Low(Step(Inject(true)), k) {
      MaskBelowTop(k);
      TapIsHigh();
      if Low(Step(Inject(true)), k) { InsideTrans(Step(Inject(true)), Mask(k), 0xFE); }
    }
  }

  lemma FeedsLinearly()
    ensures LinearFeed(Reg())
  {
    IsXorGroup();
    IsLinearStep();
    FeedIsLinear(Reg());
  }

  lemma FeedsWide()
    ensures WideFeed(Reg(), 8)
  {
    IsXorGroup();
    IsWideStep();
    FeedIsWide(Reg(), 8);
  }

  // ---------------------------------------------------------------- burst detection

  /** Two messages that differ only within 8 consecutive bits have different checksums. */
  lemma BurstDetected(a: seq<bv8>, b: seq<bv8>, start: nat)
    requires BurstError(MsbFirst, a, b, start, 8)
    ensures Checksum(a) != Checksum(b)
  {
    FeedsLinearly();
    FeedsWide();
    BitRegister.BurstDetected(Reg(), 8, INIT, Bits(MsbFirst, a), Bits(MsbFirst, b), start);
  }

  // ---------------------------------------------------------------- the table

  /** The counter of the table builder after i increments. */
  function Word(i: nat): bv8 {
    if i == 0 then 0 else Word(i - 1) + 1
  }

  function Entry(i: int): bv8
    requires 0 <= i < 256
  {
    StepN(Reg(), Word(i), 8)
  }

  function Index(z: bv8): (i: int)
    ensures 0 <= i < 256
  {
    z as int
  }

  lemma ByteCounts(v: bv8)
    ensures v != 0 ==> (v - 1) as int == v as int - 1
  {}

  lemma {:induction false} WordOfByte(v: bv8)
    ensures Word(v as int) == v
    decreases v as int
  {
    if v != 0 {
      ByteCounts(v);
      WordOfByte(v - 1);
    }
  }

  lemma ShiftTwice(v: bv8)
    ensures (v << 1) << 1 == v << 2 && (v << 2) << 1 == v << 3 && (v << 3) << 1 == v << 4
    ensures (v << 4) << 1 == v << 5 && (v << 5) << 1 == v << 6 && (v << 6) << 1 == v << 7
    ensures (v << 7) << 1 == 0
  {}

  lemma WordBits(v: bv8)
    ensures OutBits(Reg(), v, 8) == [Out(v), Out(v << 1), Out(v << 2), Out(v << 3),
                                     Out(v << 4), Out(v << 5), Out(v << 6), Out(v << 7)]
    ensures RestN(Reg(), v, 8) == 0
  {
    ShiftTwice(v);
    OutBits8(Reg(), v, v << 1, v << 2, v << 3, v << 4, v << 5, v << 6, v << 7);
  }

  lemma OutAt(b: bv8)
    ensures Out(b) == ((b >> 7) & 1 == 1)
    ensures Out(b << 1) == ((b >> 6) & 1 == 1)
    ensures Out(b << 2) == ((b >> 5) & 1 == 1)
    ensures Out(b << 3) == ((b >> 4) & 1 == 1)
    ensures Out(b << 4) == ((b >> 3) & 1 == 1)
    ensures Out(b << 5) == ((b >> 2) & 1 == 1)
    ensures Out(b << 6) == ((b >> 1) & 1 == 1)
    ensures Out(b << 7) == (b & 1 == 1)
  {}

  lemma ByteOut(b: bv8)
    ensures OutBits(Reg(), b, 8) == ByteBits(MsbFirst, b)
    ensures RestN(Reg(), b, 8) == 0
  {
    WordBits(b);
    OutAt(b);
    HighToLow(b);
  }

  lemma ZeroOut()
    ensures !Out(0) && Rest(0) == 0
  {}

  lemma ZeroKept()
    ensures AllClear(OutBits(Reg(), 0, 8)) && RestN(Reg(), 0, 8) == 0
  {
    ZeroOut();
    OutBits8(Reg(), 0, 0, 0, 0, 0, 0, 0, 0);
  }

  lemma ZeroXor(z: bv8)
    ensures Xor(0, z) == z
  {}

  lemma LookupWord(c: bv8, v: bv8, kept: bv8, looked: bv8)
    requires Xor(c, v) == Xor(kept, looked)
    requires AllClear(OutBits(Reg(), kept, 8)) && RestN(Reg(), v, 8) == 0
    ensures Run(Reg(), c, OutBits(Reg(), v, 8)) == Xor(RestN(Reg(), kept, 8), StepN(Reg(), looked, 8))
  {
    IsXorGroup();
    IsLinearStep();
    DoesShift();
    TableStep(Reg(), c, v, kept, looked);
  }

  /** One table look-up does what feeding the eight bits of the byte does. */
  lemma Lookup(c: bv8, b: bv8)
    ensures Entry(Index(Xor(c, b))) == Run(Reg(), c, ByteBits(MsbFirst, b))
  {
    var z := Xor(c, b);
    ByteOut(b);
    ZeroKept();
    ZeroXor(z);
    LookupWord(c, b, 0, z);
    ZeroXor(StepN(Reg(), z, 8));
    WordOfByte(z);
  }

  lemma FeedByte(c: bv8, b: bv8)
    ensures Run(Reg(), c, ByteBits(MsbFirst, b)) == StepN(Reg(), Xor(c, b), 8)
  {
    IsXorGroup();
    DoesShift();
    ByteOut(b);
    FeedWord(Reg(), c, b, 8);
  }

  lemma EightSteps(r0: bv8, r1: bv8, r2: bv8, r3: bv8, r4: bv8, r5: bv8, r6: bv8, r7: bv8, r8: bv8)
    requires Step(r0) == r1 && Step(r1) == r2 && Step(r2) == r3 && Step(r3) == r4
    requires Step(r4) == r5 && Step(r5) == r6 && Step(r6) == r7 && Step(r7) == r8
    ensures StepN(Reg(), r0, 8) == r8
  {
    assert StepN(Reg(), r6, 2) == r8;
    assert StepN(Reg(), r4, 4) == StepN(Reg(), r6, 2);
    assert StepN(Reg(), r2, 6) == StepN(Reg(), r4, 4);
    assert StepN(Reg(), r0, 8) == StepN(Reg(), r2, 6);
  }

  lemma PrependByte(c: bv8, b: bv8, tail: seq<bv8>)
    ensures UpdateBits(c, [b] + tail) == UpdateBits(StepN(Reg(), Xor(c, b), 8), tail)
  {
    var m := [b] + tail;
    FeedByte(c, b);
    UpdateStep(Reg(), MsbFirst, c, m, 0);
    assert m[0..] == m && m[1..] == tail;
  }

  lemma Pattern1()
    ensures UpdateBits(0x80, [0x80]) == 0
  {
    EightSteps(0x0, 0x0, 0x0, 0x0, 0x0, 0x0, 0x0, 0x0, 0x0);
    PrependByte(0x80, 0x80, []);
    assert [0x80 as bv8] + [] == [0x80];
  }

  lemma Pattern0()
    ensures UpdateBits(0x0, [0x83, 0x80]) == 0
  {
    EightSteps(0x83, 0x1, 0x2, 0x4, 0x8, 0x10, 0x20, 0x40, 0x80);
    Pattern1();
    PrependByte(0x0, 0x83, [0x80]);
    assert [0x83 as bv8] + [0x80] == [0x83, 0x80];
  }

  lemma PatternLength()
    ensures BurstError(MsbFirst, [0, 0], [0x83, 0x80], 0, 9)
  {
    var a: seq<bv8>, b: seq<bv8> := [0, 0], [0x83, 0x80];
    BytesDiffer(MsbFirst, a, b);
    BitsAt(MsbFirst, a, 1);
    BitsAt(MsbFirst, b, 1);
    assert ByteBits(MsbFirst, a[1])[1..] == ByteBits(MsbFirst, b[1])[1..];
    var x, y := Bits(MsbFirst, a), Bits(MsbFirst, b);
    forall k | 9 <= k < 16 ensures x[k] == y[k] {
      assert x[k] == ByteBits(MsbFirst, a[1])[1..][k - 9];
      assert y[k] == ByteBits(MsbFirst, b[1])[1..][k - 9];
    }
  }

  lemma PatternHidden(a: seq<bv8>, b: seq<bv8>)
    requires |a| == |b| && AllClear(Bits(MsbFirst, a)) && UpdateBits(0, b) == 0
    ensures Checksum(a) == Checksum(b)
  {
    FeedsLinearly();
    DifferenceHidden(Reg(), INIT, Bits(MsbFirst, a), Bits(MsbFirst, b));
  }

  /** The bound is tight: some difference spread over 9 consecutive bits goes unnoticed. */
  lemma BurstBoundTight()
    ensures exists a, b :: BurstError(MsbFirst, a, b, 0, 9) && Checksum(a) == Checksum(b)
  {
    var a, b := Pattern();
    PatternHidden(a, b);
  }

  lemma Pattern() returns (a: seq<bv8>, b: seq<bv8>)
    ensures BurstError(MsbFirst, a, b, 0, 9) && AllClear(Bits(MsbFirst, a)) && UpdateBits(0, b) == 0
  {
    a, b := [0, 0], [0x83, 0x80];
    PatternLength();
    Pattern0();
    ZeroBits();
  }

  lemma ZeroBits()
    ensures AllClear(Bits(MsbFirst, [0, 0]))
  {
    var a: seq<bv8> := [0, 0];
    forall k | 0 <= k < 16 ensures !Bits(MsbFirst, a)[k] {
      BitsAt(MsbFirst, a, k / 8);
      assert Bits(MsbFirst, a)[k] == ByteBits(MsbFirst, a[k / 8])[k % 8];
    }
  }

  class Engine {
    const table: array<bv8>
    var ready: bool

    ghost predicate Valid()
      reads this, table
    {
      && table.Length == 256
      && (ready ==> forall i :: 0 <= i < 256 ==> table[i] == Entry(i))
    }

    constructor ()
      ensures Valid() && !ready && fresh(table)
    {
      table := new bv8[256];
      ready := false;
    }

    method BuildEntry(word: bv8) returns (crc: bv8)
      ensures crc == StepN(Reg(), word, 8)
    {
      crc := word;
      for j := 0 to 8
        invariant StepN(Reg(), crc, 8 - j) == StepN(Reg(), word, 8)
      {
        crc := if crc & 0x80 != 0 then (crc << 1) ^ 0x07 else crc << 1;
      }
    }

    method Build()
      requires Valid()
      modifies this, table
      ensures Valid() && ready
    {
      var word: bv8 := 0;
      for i := 0 to 256
        invariant word == Word(i)
        invariant forall k :: 0 <= k < i ==> table[k] == Entry(k)
      {
        table[i] := BuildEntry(word);
        word := word + 1;
      }
      ready := true;
    }

    method Init() returns (crc: bv8)
      requires Valid()
      modifies this, table
      ensures Valid() && ready
      ensures crc == INIT
    {
      if !ready { Build(); }
      crc := 0x00;
    }

    method Feed(start: bv8, data: seq<bv8>) returns (crc: bv8)
      requires Valid()
      modifies this, table
      ensures Valid() && ready
      ensures crc == UpdateBits(start, data)
    {
      crc := start;
      if !ready { Build(); }
      for i := 0 to |data|
        invariant Valid() && ready
        invariant UpdateBits(crc, data[i..]) == UpdateBits(start, data)
      {
        Lookup(crc, data[i]);
        UpdateStep(Reg(), MsbFirst, crc, data, i);
        crc := table[Index(Xor(crc, data[i]))];
      }
    }

    method Final(crc: bv8) returns (r: bv8)
      ensures r == crc
    {
      r := crc;
    }

    method OneShot(data: seq<bv8>) returns (crc: bv8)
      requires Valid()
      modifies this, table
      ensures Valid() && ready
      ensures crc == Checksum(data)
    {
      crc := Init();
      crc := Feed(crc, data);
      crc := Final(crc);
    }
  }
}
