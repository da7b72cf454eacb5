/** Long division of polynomials over the field of two elements, on lists of coefficients with the highest first,
    and why a shift register with feedback carries it out. */
module LongDivision {
  import opened BitRegister

  /** d minus a polynomial that starts in the same place. */
  function Subtract(d: seq<bool>, p: seq<bool>): (r: seq<bool>)
    requires |p| <= |d|
    ensures |r| == |d|
  {
    XorBits(d[..|p|], p) + d[|p|..]
  }

  /** One step: the generator is taken off if the leading coefficient of d is 1, and that coefficient dropped. */
  function Divided(d: seq<bool>, gen: seq<bool>): (e: seq<bool>)
    requires 0 < |gen| <= |d|
    ensures |e| == |d| - 1
    ensures forall i :: 0 <= i < |e| ==> e[i] == (d[i + 1] != (d[0] && i + 1 < |gen| && gen[i + 1]))
  {
    if d[0] then Subtract(d, gen)[1..] else d[1..]
  }

  /** What is left of d when a generator with leading coefficient 1 has been taken off as often as it fits. */
  function Remainder(d: seq<bool>, gen: seq<bool>): (r: seq<bool>)
    requires gen != []
    ensures |r| < |gen|
    decreases |d|
  {
    if |d| < |gen| then d else Remainder(Divided(d, gen), gen)
  }

  function Zeros(n: nat): (z: seq<bool>)
    ensures |z| == n && forall i :: 0 <= i < n ==> !z[i]
  {
    seq(n, _ => false)
  }

  function Complement(x: seq<bool>): (y: seq<bool>)
    ensures |y| == |x| && forall i :: 0 <= i < |x| ==> y[i] == !x[i]
  {
    seq(|x|, i requires 0 <= i < |x| => !x[i])
  }

  /** The message with room for the checksum, its first n coefficients complemented. */
  function Inverted(message: seq<bool>, n: nat): seq<bool> {
    var d := message + Zeros(n);
    Complement(d[..n]) + d[n..]
  }

  /** The generator of degree n with these exponents. */
  function Generator(n: nat, exponents: set<nat>): (gen: seq<bool>)
    ensures |gen| == n + 1
  {
    seq(n + 1, i => n - i in exponents)
  }

  // ---------------------------------------------------------------- the register

  function Shifted(r: seq<bool>): (s: seq<bool>)
    requires r != []
    ensures |s| == |r| && forall i :: 0 <= i < |r| ==> s[i] == (i + 1 < |r| && r[i + 1])
  {
    r[1..] + [false]
  }

  /** Stepping shifts, and takes the generator off when a set bit leaves. */
  ghost predicate TakesOff<R(!new)>(reg: Register<R>, taps: R) {
    forall c :: reg.step(c) == if reg.out(c) then reg.xor(reg.rest(c), taps) else reg.rest(c)
  }

  ghost predicate OutAdditive<R(!new)>(reg: Register<R>) {
    forall a, b {:trigger reg.out(reg.xor(a, b))} :: reg.out(reg.xor(a, b)) == (reg.out(a) != reg.out(b))
  }

  ghost predicate RestAdditive<R(!new)>(reg: Register<R>) {
    forall a, b {:trigger reg.rest(reg.xor(a, b))} :: reg.rest(reg.xor(a, b)) == reg.xor(reg.rest(a), reg.rest(b))
  }

  /** An injected bit leaves at once; zero stays zero. */
  ghost predicate InjectsFirst<R(!new)>(reg: Register<R>) {
    && (forall bit :: reg.out(reg.inject(bit)) == bit && reg.rest(reg.inject(bit)) == reg.zero)
    && (forall c :: reg.xor(c, reg.zero) == c)
    && !reg.out(reg.zero)
  }

  /** Words leave bit by bit and are then gone. */
  ghost predicate Empties<R(!new)>(reg: Register<R>, width: nat) {
    forall c :: RestN(reg, c, width) == reg.zero
  }

  /** A register of `width` bits with feedback by the generator. */
  ghost predicate Feedback<R(!new)>(reg: Register<R>, width: nat, gen: seq<bool>, taps: R) {
    && |gen| == width + 1 && width > 0 && gen[0]
    && OutBits(reg, taps, width) == gen[1..]
    && TakesOff(reg, taps) && OutAdditive(reg) && RestAdditive(reg) && InjectsFirst(reg) && Empties(reg, width)
  }

  lemma {:induction false} OutXor<R(!new)>(reg: Register<R>, a: R, b: R, n: nat)
    requires OutAdditive(reg) && RestAdditive(reg)
    ensures OutBits(reg, reg.xor(a, b), n) == XorBits(OutBits(reg, a, n), OutBits(reg, b, n))
    decreases n
  {
    if n > 0 {
      OutXor(reg, reg.rest(a), reg.rest(b), n - 1);
    }
  }

  lemma {:induction false} OutSplit<R>(reg: Register<R>, v: R, m: nat, n: nat)
    ensures OutBits(reg, v, m + n) == OutBits(reg, v, m) + OutBits(reg, RestN(reg, v, m), n)
    ensures RestN(reg, v, m + n) == RestN(reg, RestN(reg, v, m), n)
    decreases m
  {
    if m > 0 {
      OutSplit(reg, reg.rest(v), m - 1, n);
      assert [reg.out(v)] + (OutBits(reg, reg.rest(v), m - 1) + OutBits(reg, RestN(reg, v, m), n))
          == ([reg.out(v)] + OutBits(reg, reg.rest(v), m - 1)) + OutBits(reg, RestN(reg, v, m), n);
    } else {
      assert [] + OutBits(reg, v, n) == OutBits(reg, v, n);
    }
  }

  /** What leaves a word that has been shifted once. */
  lemma RestBits<R(!new)>(reg: Register<R>, c: R, width: nat)
    requires width > 0 && RestN(reg, c, width) == reg.zero && !reg.out(reg.zero)
    ensures OutBits(reg, c, width)[0] == reg.out(c)
    ensures OutBits(reg, reg.rest(c), width) == Shifted(OutBits(reg, c, width))
  {
    OutSplit(reg, c, width, 1);
    assert OutBits(reg, c, width + 1) == [reg.out(c)] + OutBits(reg, reg.rest(c), width);
    assert OutBits(reg, reg.zero, 1) == [reg.out(reg.zero)];
    var all := OutBits(reg, c, width) + [false];
    assert all[1..] == Shifted(OutBits(reg, c, width));
  }

  /** The register after one message bit. */
  function Fed(r: seq<bool>, bit: bool, gen: seq<bool>): (s: seq<bool>)
    requires |r| > 0 && |gen| == |r| + 1
    ensures |s| == |r|
    ensures forall i :: 0 <= i < |r| ==> s[i] == ((i + 1 < |r| && r[i + 1]) != (r[0] != bit && gen[i + 1]))
  {
    if r[0] != bit then XorBits(Shifted(r), gen[1..]) else Shifted(r)
  }

  lemma StepBits<R(!new)>(reg: Register<R>, width: nat, gen: seq<bool>, taps: R, c: R)
    requires Feedback(reg, width, gen, taps)
    ensures var r := OutBits(reg, c, width);
            OutBits(reg, reg.step(c), width) == if r[0] then XorBits(Shifted(r), gen[1..]) else Shifted(r)
  {
    RestBits(reg, c, width);
    OutXor(reg, reg.rest(c), taps, width);
  }

  lemma FeedBits<R(!new)>(reg: Register<R>, width: nat, gen: seq<bool>, taps: R, c: R, bit: bool)
    requires Feedback(reg, width, gen, taps)
    ensures var r := OutBits(reg, c, width);
            OutBits(reg, reg.Feed(c, bit), width) == Fed(r, bit, gen)
  {
    var d := reg.xor(c, reg.inject(bit));
    assert reg.rest(d) == reg.rest(c);
    assert reg.out(d) == (reg.out(c) != bit);
    RestBits(reg, c, width);
    RestBits(reg, d, width);
    StepBits(reg, width, gen, taps, d);
  }

  lemma SubtractAt(d: seq<bool>, p: seq<bool>, i: nat)
    requires |p| <= |d| && i < |d|
    ensures Subtract(d, p)[i] == if i < |p| then d[i] != p[i] else d[i]
  {}

  lemma DividedAt(m: seq<bool>, r: seq<bool>, s: seq<bool>, gen: seq<bool>, i: nat)
    requires 0 < |r| < |m| && |gen| == |r| + 1 && gen[0] && s == Fed(r, m[0], gen) && i < |m| - 1
    ensures Divided(Subtract(m, r), gen)[i] == Subtract(m[1..], s)[i]
  {
    SubtractAt(m, r, 0);
    SubtractAt(m, r, i + 1);
    SubtractAt(m[1..], s, i);
  }

  /** One step of the division, with the register held apart from the message. */
  lemma DivideStep(r: seq<bool>, bits: seq<bool>, gen: seq<bool>)
    requires |r| > 0 && |gen| == |r| + 1 && gen[0] && bits != []
    ensures Remainder(Subtract(bits + Zeros(|r|), r), gen) ==
            Remainder(Subtract(bits[1..] + Zeros(|r|), Fed(r, bits[0], gen)), gen)
  {
    var m, s := bits + Zeros(|r|), Fed(r, bits[0], gen);
    assert m[1..] == bits[1..] + Zeros(|r|);
    forall i | 0 <= i < |m| - 1
      ensures Divided(Subtract(m, r), gen)[i] == Subtract(m[1..], s)[i]
    {
      DividedAt(m, r, s, gen, i);
    }
    assert Divided(Subtract(m, r), gen) == Subtract(m[1..], s);
  }

  /** The register run over a message holds the remainder of the message, with room for the checksum, from which the
      start value was subtracted in front. */
  lemma {:induction false} RunDivides<R(!new)>(reg: Register<R>, width: nat, gen: seq<bool>, taps: R, c: R, bits: seq<bool>)
    requires Feedback(reg, width, gen, taps)
    ensures OutBits(reg, Run(reg, c, bits), width) ==
            Remainder(Subtract(bits + Zeros(width), OutBits(reg, c, width)), gen)
    decreases |bits|
  {
    var r := OutBits(reg, c, width);
    if bits == [] {
      assert Subtract(Zeros(width), r) == r;
      assert bits + Zeros(width) == Zeros(width);
    } else {
      FeedBits(reg, width, gen, taps, c, bits[0]);
      RunDivides(reg, width, gen, taps, reg.Feed(c, bits[0]), bits[1..]);
      DivideStep(r, bits, gen);
    }
  }

  /** With all ones as the start value that is the remainder of the message with its first bits complemented. */
  lemma OnesInvert(bits: seq<bool>, ones: seq<bool>)
    requires forall i :: 0 <= i < |ones| ==> ones[i]
    ensures Subtract(bits + Zeros(|ones|), ones) == Inverted(bits, |ones|)
  {}

  lemma ZerosKeep(d: seq<bool>, zeros: seq<bool>)
    requires |zeros| <= |d| && forall i :: 0 <= i < |zeros| ==> !zeros[i]
    ensures Subtract(d, zeros) == d
  {}
}
