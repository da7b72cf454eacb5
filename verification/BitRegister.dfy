/** A shift register that is fed one bit at a time, and why it notices short bursts.

    The three CRC widths differ in register type, polynomial and bit order.  What
    makes each of them detect a burst is the same small set of laws, so the argument
    is made once, for any register that obeys them. */
module BitRegister {

  /** `step` shifts by one position, `inject` places a message bit where it is shifted out
      first, `out` is the bit in that place, `rest` is a plain shift without feedback, and
      `low(r, k)` over-approximates what some k further bits can clear. */
  datatype Register<!R> = Register(
    zero: R,
    xor: (R, R) -> R,
    step: R -> R,
    inject: bool -> R,
    out: R -> bool,
    rest: R -> R,
    low: (R, nat) -> bool)
  {
    function Feed(c: R, bit: bool): R {
      step(xor(c, inject(bit)))
    }
  }

  function Run<R>(reg: Register<R>, c: R, bits: seq<bool>): R
    decreases |bits|
  {
    if bits == [] then c else Run(reg, reg.Feed(c, bits[0]), bits[1..])
  }

  function XorBits(x: seq<bool>, y: seq<bool>): (z: seq<bool>)
    requires |x| == |y|
    ensures |z| == |x|
    ensures forall i :: 0 <= i < |x| ==> z[i] == (x[i] != y[i])
  {
    seq(|x|, i requires 0 <= i < |x| => x[i] != y[i])
  }

  ghost predicate XorGroup<R(!new)>(reg: Register<R>) {
    && (forall a, b :: reg.xor(a, b) == reg.xor(b, a))
    && (forall a, b, c :: reg.xor(reg.xor(a, b), c) == reg.xor(a, reg.xor(b, c)))
    && (forall a :: reg.xor(a, reg.zero) == a)
    && (forall a, b :: reg.xor(a, b) == reg.zero <==> a == b)
  }

  /** Shifting and injecting respect exclusive-or, and shifting loses no information. */
  ghost predicate LinearStep<R(!new)>(reg: Register<R>) {
    && (forall a, b :: reg.step(reg.xor(a, b)) == reg.xor(reg.step(a), reg.step(b)))
    && (forall p, q :: reg.inject(p != q) == reg.xor(reg.inject(p), reg.inject(q)))
    && (forall r :: reg.step(r) == reg.zero ==> r == reg.zero)
  }

  /** Stepping over a word feeds the bit it shifts out and keeps the others for later. */
  ghost predicate Shifts<R(!new)>(reg: Register<R>) {
    forall c, v :: reg.step(reg.xor(c, v)) == reg.xor(reg.Feed(c, reg.out(v)), reg.rest(v))
  }

  ghost predicate Linear<R(!new)>(reg: Register<R>) {
    XorGroup(reg) && LinearStep(reg)
  }

  /** An injected bit stays visible in the register while fewer than `width` bits follow it. */
  ghost predicate WideStep<R(!new)>(reg: Register<R>, width: nat) {
    && (forall r :: reg.low(r, 0) <==> r == reg.zero)
    && (forall r, k: nat :: k < width && reg.low(reg.step(r), k) ==> reg.low(r, k + 1))
    && (forall r, k: nat, bit :: 0 < k && reg.low(r, k) ==> reg.low(reg.xor(r, reg.inject(bit)), k))
    && (forall k: nat :: k < width ==> !reg.low(reg.step(reg.inject(true)), k))
  }

  /** What Linear says of one fed bit. */
  ghost predicate LinearFeed<R(!new)>(reg: Register<R>) {
    && (forall a, b, p, q :: reg.Feed(reg.xor(a, b), p != q) == reg.xor(reg.Feed(a, p), reg.Feed(b, q)))
    && (forall a, b :: reg.xor(a, b) == reg.zero <==> a == b)
    && (forall r :: reg.Feed(r, false) == reg.zero <==> r == reg.zero)
  }

  /** What WideStep says of one fed bit. */
  ghost predicate WideFeed<R(!new)>(reg: Register<R>, width: nat) {
    && (forall r :: reg.low(r, 0) <==> r == reg.zero)
    && (forall c, bit, k: nat :: k < width && reg.low(reg.Feed(c, bit), k) ==> reg.low(c, k + 1))
    && (forall bit, k: nat :: k < width && reg.low(reg.Feed(reg.zero, bit), k) ==> !bit)
  }

  lemma FeedIsLinear<R(!new)>(reg: Register<R>)
    requires Linear(reg)
    ensures LinearFeed(reg)
  {
    forall a, b, p, q ensures reg.Feed(reg.xor(a, b), p != q) == reg.xor(reg.Feed(a, p), reg.Feed(b, q)) {
      XorSwap(reg, a, b, reg.inject(p), reg.inject(q));
    }
    forall r ensures reg.Feed(r, false) == reg.zero <==> r == reg.zero {
      InjectFalse(reg);
    }
  }

  lemma XorSwap<R(!new)>(reg: Register<R>, a: R, b: R, p: R, q: R)
    requires XorGroup(reg)
    ensures reg.xor(reg.xor(a, b), reg.xor(p, q)) == reg.xor(reg.xor(a, p), reg.xor(b, q))
  {
    calc {
      reg.xor(reg.xor(a, b), reg.xor(p, q));
      reg.xor(a, reg.xor(b, reg.xor(p, q)));
      reg.xor(a, reg.xor(reg.xor(b, p), q));
      reg.xor(a, reg.xor(reg.xor(p, b), q));
      reg.xor(a, reg.xor(p, reg.xor(b, q)));
      reg.xor(reg.xor(a, p), reg.xor(b, q));
    }
  }

  lemma InjectFalse<R(!new)>(reg: Register<R>)
    requires Linear(reg)
    ensures reg.inject(false) == reg.zero
    ensures reg.step(reg.zero) == reg.zero
  {
    var i, z := reg.inject(false), reg.zero;
    assert reg.inject(false != false) == reg.xor(i, i);
    assert reg.xor(z, z) == z;
    assert reg.step(reg.xor(z, z)) == reg.xor(reg.step(z), reg.step(z));
  }

  lemma XorUndone<R(!new)>(reg: Register<R>, c: R, w: R)
    requires XorGroup(reg)
    ensures reg.xor(reg.xor(c, w), w) == c
    ensures reg.xor(reg.zero, w) == w
  {
    assert reg.xor(reg.xor(c, w), w) == reg.xor(c, reg.xor(w, w));
    assert reg.xor(reg.zero, w) == reg.xor(w, reg.zero);
  }

  lemma FeedLow<R(!new)>(reg: Register<R>, width: nat, c: R, bit: bool, k: nat)
    requires WideStep(reg, width)
    requires reg.xor(reg.xor(c, reg.inject(bit)), reg.inject(bit)) == c
    requires c == reg.zero ==> reg.xor(c, reg.inject(bit)) == reg.inject(bit)
    requires k < width && reg.low(reg.Feed(c, bit), k)
    ensures reg.low(c, k + 1)
    ensures c == reg.zero ==> !bit
  {
    var r := reg.xor(c, reg.inject(bit));
    assert reg.low(reg.step(r), k);
    assert reg.low(r, k + 1);
    assert reg.low(reg.xor(r, reg.inject(bit)), k + 1);
  }

  lemma FeedIsWide<R(!new)>(reg: Register<R>, width: nat)
    requires XorGroup(reg) && WideStep(reg, width)
    ensures WideFeed(reg, width)
  {
    forall c, bit, k: nat | k < width && reg.low(reg.Feed(c, bit), k)
      ensures reg.low(c, k + 1)
      ensures c == reg.zero ==> !bit
    {
      XorUndone(reg, c, reg.inject(bit));
      FeedLow(reg, width, c, bit, k);
    }
  }

  ghost predicate AllClear(bits: seq<bool>) {
    forall i :: 0 <= i < |bits| ==> !bits[i]
  }

  /** x and y have the same length and differ, but only at indices in [start, start + width). */
  ghost predicate BurstWithin(x: seq<bool>, y: seq<bool>, start: nat, width: nat) {
    && |x| == |y|
    && x != y
    && forall i :: 0 <= i < |x| && x[i] != y[i] ==> start <= i < start + width
  }

  lemma {:induction false} RunConcat<R>(reg: Register<R>, c: R, x: seq<bool>, y: seq<bool>)
    ensures Run(reg, c, x + y) == Run(reg, Run(reg, c, x), y)
    decreases |x|
  {
    if x == [] {
      assert x + y == y;
    } else {
      assert (x + y)[1..] == x[1..] + y;
      RunConcat(reg, reg.Feed(c, x[0]), x[1..], y);
    }
  }

  /** The difference of two runs is the run of the differences. */
  lemma {:induction false} RunLinear<R(!new)>(reg: Register<R>, c: R, d: R, x: seq<bool>, y: seq<bool>)
    requires LinearFeed(reg) && |x| == |y|
    ensures Run(reg, reg.xor(c, d), XorBits(x, y)) == reg.xor(Run(reg, c, x), Run(reg, d, y))
    decreases |x|
  {
    if x != [] {
      assert XorBits(x, y)[1..] == XorBits(x[1..], y[1..]);
      RunLinear(reg, reg.Feed(c, x[0]), reg.Feed(d, y[0]), x[1..], y[1..]);
    }
  }

  /** Over clear bits a run ends in zero exactly when it starts there. */
  lemma {:induction false} ClearBits<R(!new)>(reg: Register<R>, c: R, bits: seq<bool>)
    requires LinearFeed(reg) && AllClear(bits)
    ensures Run(reg, c, bits) == reg.zero <==> c == reg.zero
    decreases |bits|
  {
    if bits != [] {
      ClearBits(reg, reg.Feed(c, false), bits[1..]);
    }
  }

  lemma {:induction false} EndsInZero<R(!new)>(reg: Register<R>, width: nat, c: R, bits: seq<bool>)
    requires WideFeed(reg, width) && |bits| <= width
    requires Run(reg, c, bits) == reg.zero
    ensures reg.low(c, |bits|)
    decreases |bits|
  {
    if bits != [] {
      var b, k: nat := bits[0], |bits| - 1;
      var d := reg.Feed(c, b);
      EndsInZero(reg, width, d, bits[1..]);
      assert k < width;
      assert reg.low(d, k);
      assert k < width && reg.low(reg.Feed(c, b), k) ==> reg.low(c, k + 1);
    }
  }

  /** At most `width` bits take zero back to zero only if none of them is set. */
  lemma {:induction false} ShortRunVisible<R(!new)>(reg: Register<R>, width: nat, bits: seq<bool>)
    requires LinearFeed(reg) && WideFeed(reg, width) && |bits| <= width
    requires Run(reg, reg.zero, bits) == reg.zero
    ensures AllClear(bits)
    decreases |bits|
  {
    if bits != [] {
      EndsInZero(reg, width, reg.Feed(reg.zero, bits[0]), bits[1..]);
      assert !bits[0];
      ShortRunVisible(reg, width, bits[1..]);
      forall i | 0 <= i < |bits| ensures !bits[i] {
        if i > 0 { assert bits[i] == bits[1..][i - 1]; }
      }
    }
  }

  /** The other half: a difference that runs from zero back to zero never shows. */
  lemma DifferenceHidden<R(!new)>(reg: Register<R>, c: R, x: seq<bool>, y: seq<bool>)
    requires LinearFeed(reg) && |x| == |y|
    requires AllClear(x) && Run(reg, reg.zero, y) == reg.zero
    ensures Run(reg, c, x) == Run(reg, c, y)
  {
    assert XorBits(x, y) == y;
    assert reg.xor(c, c) == reg.zero;
    RunLinear(reg, c, c, x, y);
  }

  function StepN<R>(reg: Register<R>, r: R, n: nat): R
    decreases n
  {
    if n == 0 then r else StepN(reg, reg.step(r), n - 1)
  }

  /** The first n bits that leave a word, and what is left of it. */
  function OutBits<R>(reg: Register<R>, v: R, n: nat): (bits: seq<bool>)
    ensures |bits| == n
    decreases n
  {
    if n == 0 then [] else [reg.out(v)] + OutBits(reg, reg.rest(v), n - 1)
  }

  function RestN<R>(reg: Register<R>, v: R, n: nat): R
    decreases n
  {
    if n == 0 then v else RestN(reg, reg.rest(v), n - 1)
  }

  lemma {:induction false} FeedWord<R(!new)>(reg: Register<R>, c: R, v: R, n: nat)
    requires Shifts(reg)
    ensures StepN(reg, reg.xor(c, v), n) == reg.xor(Run(reg, c, OutBits(reg, v, n)), RestN(reg, v, n))
    decreases n
  {
    if n > 0 {
      FeedWord(reg, reg.Feed(c, reg.out(v)), reg.rest(v), n - 1);
      assert OutBits(reg, v, n)[1..] == OutBits(reg, reg.rest(v), n - 1);
    }
  }

  lemma {:induction false} StepNLinear<R(!new)>(reg: Register<R>, a: R, b: R, n: nat)
    requires LinearStep(reg)
    ensures StepN(reg, reg.xor(a, b), n) == reg.xor(StepN(reg, a, n), StepN(reg, b, n))
    decreases n
  {
    if n > 0 {
      StepNLinear(reg, reg.step(a), reg.step(b), n - 1);
    }
  }

  /** A word whose first n bits are clear is only shifted. */
  lemma {:induction false} ClearSteps<R(!new)>(reg: Register<R>, v: R, n: nat)
    requires Linear(reg) && Shifts(reg)
    requires AllClear(OutBits(reg, v, n))
    ensures StepN(reg, v, n) == RestN(reg, v, n)
  {
    FeedWord(reg, reg.zero, v, n);
    FeedIsLinear(reg);
    ClearBits(reg, reg.zero, OutBits(reg, v, n));
    XorUndone(reg, reg.zero, v);
    XorUndone(reg, reg.zero, RestN(reg, v, n));
  }

  /** Why a table works: eight bits v fed into c equal a plain shift of one part of c ^ v
      combined with the eightfold step of the other part. */
  lemma TableStep<R(!new)>(reg: Register<R>, c: R, v: R, kept: R, looked: R)
    requires Linear(reg) && Shifts(reg)
    requires reg.xor(c, v) == reg.xor(kept, looked)
    requires AllClear(OutBits(reg, kept, 8)) && RestN(reg, v, 8) == reg.zero
    ensures Run(reg, c, OutBits(reg, v, 8)) == reg.xor(RestN(reg, kept, 8), StepN(reg, looked, 8))
  {
    FeedWord(reg, c, v, 8);
    StepNLinear(reg, kept, looked, 8);
    ClearSteps(reg, kept, 8);
  }

  lemma OutBits8<R>(reg: Register<R>, v0: R, v1: R, v2: R, v3: R, v4: R, v5: R, v6: R, v7: R)
    requires v1 == reg.rest(v0) && v2 == reg.rest(v1) && v3 == reg.rest(v2) && v4 == reg.rest(v3)
    requires v5 == reg.rest(v4) && v6 == reg.rest(v5) && v7 == reg.rest(v6)
    ensures OutBits(reg, v0, 8) == [reg.out(v0), reg.out(v1), reg.out(v2), reg.out(v3),
                                    reg.out(v4), reg.out(v5), reg.out(v6), reg.out(v7)]
    ensures RestN(reg, v0, 8) == reg.rest(v7)
  {
    assert OutBits(reg, v6, 2) == [reg.out(v6), reg.out(v7)];
    assert OutBits(reg, v4, 4) == [reg.out(v4), reg.out(v5)] + OutBits(reg, v6, 2);
    assert OutBits(reg, v2, 6) == [reg.out(v2), reg.out(v3)] + OutBits(reg, v4, 4);
    assert OutBits(reg, v0, 8) == [reg.out(v0), reg.out(v1)] + OutBits(reg, v2, 6);
    assert RestN(reg, v6, 2) == reg.rest(v7);
    assert RestN(reg, v4, 4) == RestN(reg, v6, 2);
    assert RestN(reg, v2, 6) == RestN(reg, v4, 4);
  }

  lemma BurstVisible<R(!new)>(reg: Register<R>, width: nat, z: seq<bool>, start: nat, i: nat)
    requires LinearFeed(reg) && WideFeed(reg, width)
    requires i < |z| && z[i]
    requires forall j :: 0 <= j < |z| && z[j] ==> start <= j < start + width
    ensures Run(reg, reg.zero, z) != reg.zero
  {
    var hi := if start + width <= |z| then start + width else |z|;
    var head, burst, tail := z[..start], z[start..hi], z[hi..];
    assert z == head + (burst + tail);
    RunConcat(reg, reg.zero, head, burst + tail);
    ClearBits(reg, reg.zero, head);
    RunConcat(reg, reg.zero, burst, tail);
    ClearBits(reg, Run(reg, reg.zero, burst), tail);
    assert burst[i - start];
    if Run(reg, reg.zero, burst) == reg.zero {
      ShortRunVisible(reg, width, burst);
      assert false;
    }
  }

  /** The burst theorem: a difference confined to `width` consecutive bits always shows. */
  lemma BurstDetected<R(!new)>(reg: Register<R>, width: nat, c: R, x: seq<bool>, y: seq<bool>, start: nat)
    requires LinearFeed(reg) && WideFeed(reg, width)
    requires BurstWithin(x, y, start, width)
    ensures Run(reg, c, x) != Run(reg, c, y)
  {
    var i :| 0 <= i < |x| && x[i] != y[i];
    BurstVisible(reg, width, XorBits(x, y), start, i);
    assert reg.xor(c, c) == reg.zero;
    RunLinear(reg, c, c, x, y);
  }
}

/** Messages as bit streams: each byte least or most significant bit first. */
module ByteStream {
  import opened BitRegister

  datatype Order = LsbFirst | MsbFirst

  function LowToHigh(b: bv8): (bits: seq<bool>)
    ensures |bits| == 8
  {
    [b & 1 == 1, (b >> 1) & 1 == 1, (b >> 2) & 1 == 1, (b >> 3) & 1 == 1,
     (b >> 4) & 1 == 1, (b >> 5) & 1 == 1, (b >> 6) & 1 == 1, (b >> 7) & 1 == 1]
  }

  function Reverse8(s: seq<bool>): (r: seq<bool>)
    requires |s| == 8
    ensures |r| == 8
  {
    [s[7], s[6], s[5], s[4], s[3], s[2], s[1], s[0]]
  }

  function ByteBits(order: Order, b: bv8): (bits: seq<bool>)
    ensures |bits| == 8
  {
    var up := LowToHigh(b);
    match order
    case LsbFirst => up
    case MsbFirst => Reverse8(up)
  }

  lemma Reversed(b0: bool, b1: bool, b2: bool, b3: bool, b4: bool, b5: bool, b6: bool, b7: bool)
    ensures Reverse8([b0, b1, b2, b3, b4, b5, b6, b7]) == [b7, b6, b5, b4, b3, b2, b1, b0]
  {}

  lemma HighToLow(b: bv8)
    ensures ByteBits(MsbFirst, b)
         == [(b >> 7) & 1 == 1, (b >> 6) & 1 == 1, (b >> 5) & 1 == 1, (b >> 4) & 1 == 1,
             (b >> 3) & 1 == 1, (b >> 2) & 1 == 1, (b >> 1) & 1 == 1, b & 1 == 1]
  {
    Reversed(b & 1 == 1, (b >> 1) & 1 == 1, (b >> 2) & 1 == 1, (b >> 3) & 1 == 1,
             (b >> 4) & 1 == 1, (b >> 5) & 1 == 1, (b >> 6) & 1 == 1, (b >> 7) & 1 == 1);
  }

  function Bits(order: Order, data: seq<bv8>): (bits: seq<bool>)
    ensures |bits| == 8 * |data|
  {
    if data == [] then [] else ByteBits(order, data[0]) + Bits(order, data[1..])
  }

  /** The reference checksum register: the whole message one bit at a time. */
  function Update<R>(reg: Register<R>, order: Order, c: R, data: seq<bv8>): R {
    Run(reg, c, Bits(order, data))
  }

  lemma Chunk(head: seq<bool>, tail: seq<bool>, i: nat)
    requires |head| == 8 && 8 * i + 8 <= 8 + |tail|
    ensures i == 0 ==> (head + tail)[8 * i..8 * i + 8] == head
    ensures i > 0 ==> (head + tail)[8 * i..8 * i + 8] == tail[8 * (i - 1)..8 * (i - 1) + 8]
  {}

  lemma {:induction false} BitsAt(order: Order, data: seq<bv8>, i: nat)
    requires i < |data|
    ensures Bits(order, data)[8 * i..8 * i + 8] == ByteBits(order, data[i])
  {
    Chunk(ByteBits(order, data[0]), Bits(order, data[1..]), i);
    if i > 0 {
      BitsAt(order, data[1..], i - 1);
    }
  }

  lemma SameBits(a: bv8, b: bv8)
    requires (a & 1 == 1) == (b & 1 == 1)
    requires ((a >> 1) & 1 == 1) == ((b >> 1) & 1 == 1)
    requires ((a >> 2) & 1 == 1) == ((b >> 2) & 1 == 1)
    requires ((a >> 3) & 1 == 1) == ((b >> 3) & 1 == 1)
    requires ((a >> 4) & 1 == 1) == ((b >> 4) & 1 == 1)
    requires ((a >> 5) & 1 == 1) == ((b >> 5) & 1 == 1)
    requires ((a >> 6) & 1 == 1) == ((b >> 6) & 1 == 1)
    requires ((a >> 7) & 1 == 1) == ((b >> 7) & 1 == 1)
    ensures a == b
  {}

  lemma LowToHighInjective(a: bv8, b: bv8)
    requires LowToHigh(a) == LowToHigh(b)
    ensures a == b
  {
    var x, y := LowToHigh(a), LowToHigh(b);
    assert x[0] == y[0] && x[1] == y[1] && x[2] == y[2] && x[3] == y[3];
    assert x[4] == y[4] && x[5] == y[5] && x[6] == y[6] && x[7] == y[7];
    SameBits(a, b);
  }

  lemma ByteBitsInjective(order: Order, a: bv8, b: bv8)
    requires ByteBits(order, a) == ByteBits(order, b)
    ensures a == b
  {
    if order == MsbFirst {
      Reverse8Injective(LowToHigh(a), LowToHigh(b));
    }
    LowToHighInjective(a, b);
  }

  lemma Reverse8Injective(x: seq<bool>, y: seq<bool>)
    requires |x| == |y| == 8 && Reverse8(x) == Reverse8(y)
    ensures x == y
  {
    forall i | 0 <= i < 8
      ensures x[i] == y[i]
    {
      assert x[i] == Reverse8(x)[7 - i] && y[i] == Reverse8(y)[7 - i];
    }
  }

  lemma {:induction false} BitsConcat(order: Order, a: seq<bv8>, b: seq<bv8>)
    ensures Bits(order, a + b) == Bits(order, a) + Bits(order, b)
  {
    if a == [] {
      assert a + b == b;
    } else {
      assert (a + b)[1..] == a[1..] + b;
      BitsConcat(order, a[1..], b);
    }
  }

  /** Updating over the parts of any split gives the result of the whole. */
  lemma SplitUpdate<R>(reg: Register<R>, order: Order, c: R, a: seq<bv8>, b: seq<bv8>)
    ensures Update(reg, order, c, a + b) == Update(reg, order, Update(reg, order, c, a), b)
  {
    BitsConcat(order, a, b);
    RunConcat(reg, c, Bits(order, a), Bits(order, b));
  }

  /** Different start values never lead to the same end over the same message. */
  lemma StartShows<R(!new)>(reg: Register<R>, order: Order, c: R, d: R, data: seq<bv8>)
    requires LinearFeed(reg) && c != d
    ensures Update(reg, order, c, data) != Update(reg, order, d, data)
  {
    var bits := Bits(order, data);
    RunLinear(reg, c, d, bits, bits);
    ClearBits(reg, reg.xor(c, d), XorBits(bits, bits));
  }

  lemma UpdateStep<R>(reg: Register<R>, order: Order, c: R, data: seq<bv8>, i: nat)
    requires i < |data|
    ensures Update(reg, order, c, data[i..])
         == Update(reg, order, Run(reg, c, ByteBits(order, data[i])), data[i + 1..])
  {
    assert data[i..][1..] == data[i + 1..];
    RunConcat(reg, c, ByteBits(order, data[i]), Bits(order, data[i + 1..]));
  }

  /** a and b have the same length and differ, but only within `width` consecutive bits. */
  ghost predicate BurstError(order: Order, a: seq<bv8>, b: seq<bv8>, start: nat, width: nat) {
    BurstWithin(Bits(order, a), Bits(order, b), start, width)
  }

  lemma SameByte(order: Order, a: seq<bv8>, b: seq<bv8>, j: nat)
    requires |a| == |b| && j < |a| && a[j] == b[j]
    ensures Bits(order, a)[8 * j..8 * j + 8] == Bits(order, b)[8 * j..8 * j + 8]
  {
    BitsAt(order, a, j);
    BitsAt(order, b, j);
  }

  lemma SameSlice(x: seq<bool>, y: seq<bool>, from: nat, upto: nat, k: nat)
    requires from <= k < upto <= |x| == |y| && x[from..upto] == y[from..upto]
    ensures x[k] == y[k]
  {
    assert x[from..upto][k - from] == y[from..upto][k - from];
  }

  lemma BitDiffers(order: Order, a: seq<bv8>, b: seq<bv8>, k: nat)
    requires |a| == |b| && k < 8 * |a|
    ensures Bits(order, a)[k] != Bits(order, b)[k] ==> a[k / 8] != b[k / 8]
  {
    var j := k / 8;
    if a[j] == b[j] {
      SameByte(order, a, b, j);
      SameSlice(Bits(order, a), Bits(order, b), 8 * j, 8 * j + 8, k);
    }
  }

  lemma BytesDiffer(order: Order, a: seq<bv8>, b: seq<bv8>)
    requires |a| == |b| && a != b
    ensures Bits(order, a) != Bits(order, b)
  {
    var i :| 0 <= i < |a| && a[i] != b[i];
    BitsAt(order, a, i);
    BitsAt(order, b, i);
    if Bits(order, a) == Bits(order, b) { ByteBitsInjective(order, a[i], b[i]); }
  }

  /** A change confined to n consecutive bytes is a burst of at most 8 n bits. */
  lemma ByteBurst(order: Order, a: seq<bv8>, b: seq<bv8>, start: nat, n: nat)
    requires |a| == |b| && a != b
    requires forall i :: 0 <= i < |a| && a[i] != b[i] ==> start <= i < start + n
    ensures BurstError(order, a, b, 8 * start, 8 * n)
  {
    BytesDiffer(order, a, b);
    var x, y := Bits(order, a), Bits(order, b);
    forall k | 0 <= k < |x| && x[k] != y[k] ensures 8 * start <= k < 8 * start + 8 * n {
      BitDiffers(order, a, b, k);
    }
  }
}
