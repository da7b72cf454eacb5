/** What a boot does, step by step (core/src/registry/fb_engine.c), and how often and in what order each step occurs. */
module BootLog {
  import opened BootGraph

  datatype FbState = Idle | Initialising | Running | Fault | Stopping | Stopped

  /** What boot does to the outside: the bus is booted, lifecycle and fault events are emitted, init functions
      are called, dispatch semaphores are created, and the bus gets the notify callback. */
  datatype Step =
    | BusBoot
    | Lifecycle(fb: nat, state: FbState)
    | InitCall(fb: nat)
    | MissingDependency(fb: nat)
    | CycleDetected
    | SemaphoreCreated(fb: nat)
    | NotifySet

  function BringUp(reg: seq<Config>, i: nat): seq<Step>
    requires i < |reg|
  {
    [Lifecycle(i, Initialising)] + (if reg[i].hasInit then [InitCall(i)] else []) + [Lifecycle(i, Running)]
  }

  function BringUpAll(reg: seq<Config>, order: seq<nat>): seq<Step> {
    if order == [] then []
    else
      var last := order[|order| - 1];
      BringUpAll(reg, order[..|order| - 1]) + if last < |reg| then BringUp(reg, last) else []
  }

  /** The blocks in `order` have been brought up one after the other, and nothing else happened. */
  ghost predicate BroughtUp(reg: seq<Config>, order: seq<nat>, was: seq<FbState>, now: seq<FbState>, log0: seq<Step>, log: seq<Step>) {
    && |now| == |was|
    && (forall i: nat :: i < |was| ==> now[i] == if i in order then Running else was[i])
    && log == log0 + BringUpAll(reg, order)
  }

  /** One semaphore for each of the first n blocks that subscribes to anything. */
  function Semaphores(reg: seq<Config>, n: nat): seq<Step>
    requires n <= |reg|
  {
    if n == 0 then [] else Semaphores(reg, n - 1) + if reg[n - 1].subscribes then [SemaphoreCreated(n - 1)] else []
  }

  lemma BringUpOne(reg: seq<Config>, order: seq<nat>, i: nat, was: seq<FbState>, now: seq<FbState>, log0: seq<Step>, log: seq<Step>)
    requires BroughtUp(reg, order, was, now, log0, log) && i < |reg| <= |was|
    ensures BroughtUp(reg, order + [i], was, now[i := Running], log0, log + BringUp(reg, i))
  {
    var more := order + [i];
    assert more[..|more| - 1] == order;
    assert log0 + BringUpAll(reg, more) == log0 + BringUpAll(reg, order) + BringUp(reg, i);
  }

  /** How far a boot got that was refused for a cycle: all earlier phases are up, and the
      first phase with a cycle, like every later one, is untouched. */
  ghost predicate StoppedAt(reg: seq<Config>, phase: nat, order: seq<nat>, was: seq<FbState>, now: seq<FbState>, log0: seq<Step>, log: seq<Step>) {
    && FIRST_PHASE <= phase <= LAST_PHASE
    && HasCycle(reg, phase)
    && (forall q :: FIRST_PHASE <= q < phase ==> !HasCycle(reg, q))
    && BootOrder(reg, phase - 1, order)
    && |log| > 0
    && BroughtUp(reg, order, was, now, log0, log[..|log| - 1])
    && log[|log| - 1] == CycleDetected
  }

  /** All phases up to `last` are acyclic and up, and nothing else happened. */
  ghost predicate UpTo(reg: seq<Config>, last: nat, order: seq<nat>, was: seq<FbState>, now: seq<FbState>, log0: seq<Step>, log: seq<Step>) {
    && (forall q :: FIRST_PHASE <= q <= last ==> !HasCycle(reg, q))
    && BootOrder(reg, last, order)
    && BroughtUp(reg, order, was, now, log0, log)
  }

  lemma Stop(reg: seq<Config>, phase: nat, order: seq<nat>, was: seq<FbState>, now: seq<FbState>, log0: seq<Step>, log: seq<Step>)
    requires FIRST_PHASE <= phase <= LAST_PHASE && HasCycle(reg, phase)
    requires UpTo(reg, phase - 1, order, was, now, log0, log)
    ensures StoppedAt(reg, phase, order, was, now, log0, log + [CycleDetected])
  {
    var end := log + [CycleDetected];
    assert end[..|end| - 1] == log;
  }

  /** A completed boot: the bus first, then the blocks in order, then their semaphores, then the callback. */
  ghost predicate Booted(reg: seq<Config>, order: seq<nat>, was: seq<FbState>, now: seq<FbState>, log0: seq<Step>, log: seq<Step>) {
    && |now| == |was|
    && (forall i: nat :: i < |was| ==> now[i] == if i in order then Running else was[i])
    && log == log0 + [BusBoot] + BringUpAll(reg, order) + Semaphores(reg, |reg|) + [NotifySet]
  }

  lemma AllUp(reg: seq<Config>, order: seq<nat>, was: seq<FbState>, now: seq<FbState>, log0: seq<Step>, up: seq<Step>, log: seq<Step>)
    requires BroughtUp(reg, order, was, now, log0 + [BusBoot], up)
    requires log == up + Semaphores(reg, |reg|) + [NotifySet]
    ensures Booted(reg, order, was, now, log0, log)
  {}

  // ---------------------------------------------------------------- how often, and in what order

  /** Every occurrence of x stands before every occurrence of y. */
  ghost predicate Before<T>(s: seq<T>, x: T, y: T) {
    forall a, b :: 0 <= a < |s| && 0 <= b < |s| && s[a] == x && s[b] == y ==> a < b
  }

  function Times(steps: seq<Step>, x: Step): nat {
    multiset(steps)[x]
  }

  predicate IsInit(x: Step) {
    x.InitCall? || x.Lifecycle?
  }

  function BlockOf(x: Step): nat
    requires IsInit(x)
  {
    match x
    case InitCall(i) => i
    case Lifecycle(i, _) => i
  }

  /** Each block of the phases up to last is initialised once, and its init function, if it has one, called once. */
  function InitTimes(reg: seq<Config>, last: nat, x: Step): nat
    requires IsInit(x)
  {
    match x
    case InitCall(i) => if InPhases(reg, last, i) && reg[i].hasInit then 1 else 0
    case Lifecycle(i, st) => if InPhases(reg, last, i) && (st == Initialising || st == Running) then 1 else 0
  }

  /** The order inside one block: INITIALISING, the init function, RUNNING. */
  predicate Follows(x: Step, y: Step)
    requires IsInit(x) && IsInit(y)
  {
    && BlockOf(x) == BlockOf(y)
    && (if x.InitCall? then y == Lifecycle(BlockOf(x), Running)
        else x.state == Initialising && (y.InitCall? || y.state == Running))
  }

  /** j must be up before i: it lies in an earlier phase, or in the same one and i depends on it. */
  ghost predicate Precedes(reg: seq<Config>, last: nat, j: nat, i: nat) {
    && InPhases(reg, last, i) && InPhases(reg, reg[i].bootPhase, j)
    && (reg[j].bootPhase < reg[i].bootPhase || DependsOn(reg, i, j))
  }

  ghost predicate InitPrecedes(reg: seq<Config>, last: nat, x: Step, y: Step) {
    IsInit(x) && IsInit(y) && (Follows(x, y) || Precedes(reg, last, BlockOf(x), BlockOf(y)))
  }

  ghost predicate InitSteps(reg: seq<Config>, last: nat, steps: seq<Step>) {
    && (forall x :: IsInit(x) ==> Times(steps, x) == InitTimes(reg, last, x))
    && (forall x, y :: InitPrecedes(reg, last, x, y) ==> Before(steps, x, y))
  }

  function OutsideTimes(reg: seq<Config>, x: Step): nat {
    match x
    case BusBoot => 1
    case SemaphoreCreated(i) => if i < |reg| && reg[i].subscribes then 1 else 0
    case NotifySet => 1
    case _ => 0
  }

  /** The steps of a completed boot: the bus first, then the blocks, then one semaphore for each block that
      subscribes, and the callback last. */
  ghost predicate BootSteps(reg: seq<Config>, steps: seq<Step>) {
    && InitSteps(reg, LAST_PHASE, steps)
    && (forall x :: !IsInit(x) ==> Times(steps, x) == OutsideTimes(reg, x))
    && steps != [] && steps[0] == BusBoot && steps[|steps| - 1] == NotifySet
    && (forall x, y: Step :: IsInit(x) && y.SemaphoreCreated? ==> Before(steps, x, y))
  }

  /** The steps of a boot refused for a cycle in a phase: the earlier phases come up, and nothing else is done. */
  ghost predicate StoppedSteps(reg: seq<Config>, phase: nat, steps: seq<Step>)
    requires phase > 0
  {
    && InitSteps(reg, phase - 1, steps)
    && (forall x :: !IsInit(x) ==> Times(steps, x) == if x == BusBoot || x == CycleDetected then 1 else 0)
    && steps != [] && steps[0] == BusBoot && steps[|steps| - 1] == CycleDetected
  }

  lemma TimesConcat(a: seq<Step>, b: seq<Step>, x: Step)
    ensures Times(a + b, x) == Times(a, x) + Times(b, x)
  {}

  lemma TimesIn(steps: seq<Step>, x: Step)
    ensures x in steps <==> Times(steps, x) > 0
  {
    assert x in steps <==> x in multiset(steps);
  }

  lemma BeforeConcat(a: seq<Step>, b: seq<Step>, x: Step, y: Step)
    requires Before(a, x, y) && Before(b, x, y) && (x !in b || y !in a)
    ensures Before(a + b, x, y)
  {
    var s := a + b;
    forall i, j | 0 <= i < |s| && 0 <= j < |s| && s[i] == x && s[j] == y
      ensures i < j
    {
      if i < |a| && j < |a| {
        assert a[i] == x && a[j] == y;
      } else if i >= |a| && j >= |a| {
        assert b[i - |a|] == x && b[j - |a|] == y;
      }
    }
  }

  /** How often a step occurs while the blocks of `order` are brought up. */
  function UpTimes(reg: seq<Config>, order: seq<nat>, x: Step): nat {
    match x
    case InitCall(i) => if i in order && i < |reg| && reg[i].hasInit then 1 else 0
    case Lifecycle(i, st) => if i in order && (st == Initialising || st == Running) then 1 else 0
    case _ => 0
  }

  ghost predicate Blocks(reg: seq<Config>, order: seq<nat>) {
    NoDup(order) && forall i :: i in order ==> i < |reg|
  }

  lemma TwoTimes(a: Step, b: Step, x: Step)
    ensures Times([a, b], x) == (if a == x then 1 else 0) + (if b == x then 1 else 0)
  {}

  lemma ThreeTimes(a: Step, b: Step, c: Step, x: Step)
    ensures Times([a, b, c], x) == (if a == x then 1 else 0) + (if b == x then 1 else 0) + (if c == x then 1 else 0)
  {}

  lemma UpTimesOne(reg: seq<Config>, i: nat, x: Step)
    requires i < |reg|
    ensures UpTimes(reg, [i], x) == (if x == Lifecycle(i, Initialising) then 1 else 0)
                                  + (if x == InitCall(i) && reg[i].hasInit then 1 else 0)
                                  + (if x == Lifecycle(i, Running) then 1 else 0)
  {
    if IsInit(x) {
      assert BlockOf(x) in [i] <==> BlockOf(x) == i;
    }
  }

  lemma OneTimes(reg: seq<Config>, i: nat, x: Step)
    requires i < |reg|
    ensures Times(BringUp(reg, i), x) == UpTimes(reg, [i], x)
  {
    var first, last := Lifecycle(i, Initialising), Lifecycle(i, Running);
    UpTimesOne(reg, i, x);
    if reg[i].hasInit {
      ThreeTimes(first, InitCall(i), last, x);
      assert BringUp(reg, i) == [first, InitCall(i), last];
    } else {
      TwoTimes(first, last, x);
      assert BringUp(reg, i) == [first, last];
    }
  }

  lemma BlocksFront(reg: seq<Config>, order: seq<nat>) returns (front: seq<nat>, last: nat)
    requires Blocks(reg, order) && order != []
    ensures order == front + [last] && Blocks(reg, front) && last < |reg| && last !in front
    ensures BringUpAll(reg, order) == BringUpAll(reg, front) + BringUp(reg, last)
  {
    var n := |order| - 1;
    front, last := order[..n], order[n];
    assert last in order;
    forall i | i in front
      ensures i < |reg| && i != last
    {
      var k :| 0 <= k < n && front[k] == i;
      assert order[k] == i && order[k] in order;
    }
  }

  lemma MemberTimes(reg: seq<Config>, front: seq<nat>, last: nat, x: Step)
    requires last !in front
    ensures UpTimes(reg, front + [last], x) == UpTimes(reg, front, x) + UpTimes(reg, [last], x)
  {}

  lemma {:induction false} AllTimes(reg: seq<Config>, order: seq<nat>, x: Step)
    requires Blocks(reg, order)
    ensures Times(BringUpAll(reg, order), x) == UpTimes(reg, order, x)
    decreases |order|
  {
    if order != [] {
      var front, last := BlocksFront(reg, order);
      AllTimes(reg, front, x);
      OneTimes(reg, last, x);
      TimesConcat(BringUpAll(reg, front), BringUp(reg, last), x);
      MemberTimes(reg, front, last, x);
    }
  }

  lemma OneBefore(reg: seq<Config>, i: nat, x: Step, y: Step)
    requires i < |reg| && IsInit(x) && IsInit(y) && Follows(x, y)
    ensures Before(BringUp(reg, i), x, y)
  {
    var first, last := Lifecycle(i, Initialising), Lifecycle(i, Running);
    if reg[i].hasInit {
      assert BringUp(reg, i) == [first, InitCall(i), last];
    } else {
      assert BringUp(reg, i) == [first, last];
    }
  }

  lemma NotIn(reg: seq<Config>, order: seq<nat>, x: Step)
    requires Blocks(reg, order) && IsInit(x) && BlockOf(x) !in order
    ensures x !in BringUpAll(reg, order)
  {
    AllTimes(reg, order, x);
    TimesIn(BringUpAll(reg, order), x);
  }

  lemma NotInOne(reg: seq<Config>, i: nat, x: Step)
    requires i < |reg| && IsInit(x) && BlockOf(x) != i
    ensures x !in BringUp(reg, i)
  {}

  lemma {:induction false} SameBlock(reg: seq<Config>, order: seq<nat>, x: Step, y: Step)
    requires Blocks(reg, order) && IsInit(x) && IsInit(y) && Follows(x, y)
    ensures Before(BringUpAll(reg, order), x, y)
    decreases |order|
  {
    if order != [] {
      var front, last := BlocksFront(reg, order);
      SameBlock(reg, front, x, y);
      OneBefore(reg, last, x, y);
      if BlockOf(x) == last {
        NotIn(reg, front, y);
      } else {
        NotInOne(reg, last, x);
      }
      BeforeConcat(BringUpAll(reg, front), BringUp(reg, last), x, y);
    }
  }

  lemma FrontBefore(front: seq<nat>, last: nat, j: nat, i: nat)
    requires Before(front + [last], j, i)
    ensures Before(front, j, i)
    ensures last == j ==> i !in front
  {
    var order := front + [last];
    assert forall k :: 0 <= k < |front| ==> front[k] == order[k];
    assert order[|front|] == last;
  }

  /** Blocks come up one after the other. */
  lemma {:induction false} OtherBlock(reg: seq<Config>, order: seq<nat>, x: Step, y: Step)
    requires Blocks(reg, order) && IsInit(x) && IsInit(y) && BlockOf(x) != BlockOf(y)
    requires Before(order, BlockOf(x), BlockOf(y))
    ensures Before(BringUpAll(reg, order), x, y)
    decreases |order|
  {
    if order != [] {
      var front, last := BlocksFront(reg, order);
      FrontBefore(front, last, BlockOf(x), BlockOf(y));
      OtherBlock(reg, front, x, y);
      if BlockOf(x) == last {
        NotIn(reg, front, y);
        NotInOne(reg, last, y);
      } else {
        NotInOne(reg, last, x);
      }
      BeforeConcat(BringUpAll(reg, front), BringUp(reg, last), x, y);
    }
  }

  lemma OrderBlocks(reg: seq<Config>, last: nat, order: seq<nat>)
    requires BootOrder(reg, last, order)
    ensures Blocks(reg, order)
  {
    forall i | i in order
      ensures i < |reg|
    {
      assert InPhases(reg, last, i);
    }
  }

  lemma OrderPrecedes(reg: seq<Config>, last: nat, order: seq<nat>, j: nat, i: nat)
    requires BootOrder(reg, last, order) && Precedes(reg, last, j, i)
    ensures Before(order, j, i) && j != i
  {
    forall b, a | 0 <= b < |order| && 0 <= a < |order| && order[b] == j && order[a] == i
      ensures b < a
    {
      if DependsOn(reg, i, j) {
        assert j in order[..a];
      } else {
        assert InPhases(reg, last, order[a]) && InPhases(reg, last, order[b]);
      }
    }
    assert i in order;
  }

  lemma OrderTimes(reg: seq<Config>, last: nat, order: seq<nat>, x: Step)
    requires BootOrder(reg, last, order)
    ensures Times(BringUpAll(reg, order), x) == if IsInit(x) then InitTimes(reg, last, x) else 0
  {
    OrderBlocks(reg, last, order);
    AllTimes(reg, order, x);
  }

  lemma OrderBefore(reg: seq<Config>, last: nat, order: seq<nat>, x: Step, y: Step)
    requires BootOrder(reg, last, order) && InitPrecedes(reg, last, x, y)
    ensures Before(BringUpAll(reg, order), x, y)
  {
    OrderBlocks(reg, last, order);
    if Follows(x, y) {
      SameBlock(reg, order, x, y);
    } else {
      OrderPrecedes(reg, last, order, BlockOf(x), BlockOf(y));
      OtherBlock(reg, order, x, y);
    }
  }

  lemma BroughtUpInit(reg: seq<Config>, last: nat, order: seq<nat>)
    requires BootOrder(reg, last, order)
    ensures InitSteps(reg, last, BringUpAll(reg, order))
  {
    var steps := BringUpAll(reg, order);
    forall x | IsInit(x)
      ensures Times(steps, x) == InitTimes(reg, last, x)
    {
      OrderTimes(reg, last, order, x);
    }
    forall x, y | InitPrecedes(reg, last, x, y)
      ensures Before(steps, x, y)
    {
      OrderBefore(reg, last, order, x, y);
    }
  }

  // ---------------------------------------------------------------- the whole log

  function SemaphoreWanted(reg: seq<Config>, n: nat, x: Step): nat {
    if x.SemaphoreCreated? && x.fb < n && x.fb < |reg| && reg[x.fb].subscribes then 1 else 0
  }

  lemma LastSemaphore(reg: seq<Config>, n: nat, x: Step)
    requires 0 < n <= |reg|
    ensures Times(Semaphores(reg, n), x) ==
            Times(Semaphores(reg, n - 1), x) + (if reg[n - 1].subscribes && x == SemaphoreCreated(n - 1) then 1 else 0)
  {
    var before, one := Semaphores(reg, n - 1), SemaphoreCreated(n - 1);
    if reg[n - 1].subscribes {
      TimesMore(before, one, x);
      assert Semaphores(reg, n) == before + [one];
    } else {
      assert Semaphores(reg, n) == before;
    }
  }

  lemma TimesMore(steps: seq<Step>, y: Step, x: Step)
    ensures Times(steps + [y], x) == Times(steps, x) + (if x == y then 1 else 0)
  {
    TimesConcat(steps, [y], x);
  }

  lemma LastWanted(reg: seq<Config>, n: nat, x: Step)
    requires 0 < n <= |reg|
    ensures SemaphoreWanted(reg, n, x) ==
            SemaphoreWanted(reg, n - 1, x) + (if reg[n - 1].subscribes && x == SemaphoreCreated(n - 1) then 1 else 0)
  {}

  lemma {:induction false} SemaphoreTimes(reg: seq<Config>, n: nat, x: Step)
    requires n <= |reg|
    ensures Times(Semaphores(reg, n), x) == SemaphoreWanted(reg, n, x)
  {
    if n == 0 {
      assert Semaphores(reg, n) == [];
    } else {
      SemaphoreTimes(reg, n - 1, x);
      LastSemaphore(reg, n, x);
      LastWanted(reg, n, x);
    }
  }

  lemma FramedTimes(before: seq<Step>, steps: seq<Step>, after: seq<Step>, x: Step)
    ensures Times(before + steps + after, x) == Times(before, x) + Times(steps, x) + Times(after, x)
  {
    TimesConcat(before, steps, x);
    TimesConcat(before + steps, after, x);
  }

  /** Order is kept when other steps are put around. */
  lemma FramedBefore(before: seq<Step>, steps: seq<Step>, after: seq<Step>, x: Step, y: Step)
    requires Before(steps, x, y) && x !in before && y !in before && x !in after && y !in after
    ensures Before(before + steps + after, x, y)
  {
    BeforeConcat(before, steps, x, y);
    BeforeConcat(before + steps, after, x, y);
  }

  lemma FramedInit(reg: seq<Config>, last: nat, order: seq<nat>, before: seq<Step>, after: seq<Step>)
    requires BootOrder(reg, last, order)
    requires forall x :: IsInit(x) ==> x !in before && x !in after
    ensures InitSteps(reg, last, before + BringUpAll(reg, order) + after)
  {
    var up := BringUpAll(reg, order);
    BroughtUpInit(reg, last, order);
    forall x | IsInit(x)
      ensures Times(before + up + after, x) == InitTimes(reg, last, x)
    {
      TimesIn(before, x);
      TimesIn(after, x);
      FramedTimes(before, up, after, x);
    }
    forall x, y | InitPrecedes(reg, last, x, y)
      ensures Before(before + up + after, x, y)
    {
      FramedBefore(before, up, after, x, y);
    }
  }

  /** The steps of a completed boot after the bus and the blocks. */
  function Closing(reg: seq<Config>): seq<Step> {
    Semaphores(reg, |reg|) + [NotifySet]
  }

  lemma ClosingTimes(reg: seq<Config>, x: Step)
    ensures Times(Closing(reg), x) == if x == BusBoot then 0 else OutsideTimes(reg, x)
    ensures IsInit(x) ==> x !in Closing(reg)
  {
    SemaphoreTimes(reg, |reg|, x);
    TimesConcat(Semaphores(reg, |reg|), [NotifySet], x);
    TimesIn(Closing(reg), x);
  }

  lemma OutsideBooted(reg: seq<Config>, order: seq<nat>, x: Step)
    requires BootOrder(reg, LAST_PHASE, order) && !IsInit(x)
    ensures Times([BusBoot] + BringUpAll(reg, order) + Closing(reg), x) == OutsideTimes(reg, x)
  {
    FramedTimes([BusBoot], BringUpAll(reg, order), Closing(reg), x);
    OrderTimes(reg, LAST_PHASE, order, x);
    ClosingTimes(reg, x);
  }

  lemma SemaphoresLast(reg: seq<Config>, order: seq<nat>, x: Step, y: Step)
    requires BootOrder(reg, LAST_PHASE, order) && IsInit(x) && y.SemaphoreCreated?
    ensures Before([BusBoot] + BringUpAll(reg, order) + Closing(reg), x, y)
  {
    var up := [BusBoot] + BringUpAll(reg, order);
    TimesConcat([BusBoot], BringUpAll(reg, order), y);
    OrderTimes(reg, LAST_PHASE, order, y);
    TimesIn(up, y);
    ClosingTimes(reg, x);
    BeforeConcat(up, Closing(reg), x, y);
  }

  lemma CompletedSteps(reg: seq<Config>, order: seq<nat>)
    requires BootOrder(reg, LAST_PHASE, order)
    ensures BootSteps(reg, [BusBoot] + BringUpAll(reg, order) + Closing(reg))
  {
    var steps := [BusBoot] + BringUpAll(reg, order) + Closing(reg);
    forall x | IsInit(x)
      ensures x !in [BusBoot] && x !in Closing(reg)
    {
      ClosingTimes(reg, x);
    }
    FramedInit(reg, LAST_PHASE, order, [BusBoot], Closing(reg));
    forall x | !IsInit(x)
      ensures Times(steps, x) == OutsideTimes(reg, x)
    {
      OutsideBooted(reg, order, x);
    }
    forall x, y: Step | IsInit(x) && y.SemaphoreCreated?
      ensures Before(steps, x, y)
    {
      SemaphoresLast(reg, order, x, y);
    }
  }

  lemma CompletedLog(log0: seq<Step>, up: seq<Step>, sems: seq<Step>, log: seq<Step>)
    requires log == log0 + [BusBoot] + up + sems + [NotifySet]
    ensures log0 <= log && log[|log0|..] == [BusBoot] + up + (sems + [NotifySet])
  {
    assert log == log0 + ([BusBoot] + up + (sems + [NotifySet]));
  }

  /** A completed boot calls every init function once, in order, then creates the semaphores, then sets the callback. */
  lemma BootedSteps(reg: seq<Config>, order: seq<nat>, was: seq<FbState>, now: seq<FbState>, log0: seq<Step>, log: seq<Step>)
    requires Booted(reg, order, was, now, log0, log) && BootOrder(reg, LAST_PHASE, order)
    ensures log0 <= log && BootSteps(reg, log[|log0|..])
  {
    CompletedSteps(reg, order);
    CompletedLog(log0, BringUpAll(reg, order), Semaphores(reg, |reg|), log);
  }

  lemma OutsideRefused(reg: seq<Config>, last: nat, order: seq<nat>, x: Step)
    requires BootOrder(reg, last, order) && !IsInit(x)
    ensures Times([BusBoot] + BringUpAll(reg, order) + [CycleDetected], x) == if x == BusBoot || x == CycleDetected then 1 else 0
  {
    FramedTimes([BusBoot], BringUpAll(reg, order), [CycleDetected], x);
    OrderTimes(reg, last, order, x);
  }

  lemma RefusedLog(log0: seq<Step>, up: seq<Step>, log: seq<Step>)
    requires |log| > 0 && log[..|log| - 1] == log0 + [BusBoot] + up && log[|log| - 1] == CycleDetected
    ensures log0 <= log && log[|log0|..] == [BusBoot] + up + [CycleDetected]
  {
    var steps := [BusBoot] + up + [CycleDetected];
    assert log == log[..|log| - 1] + [CycleDetected] == log0 + steps;
  }

  lemma RefusedInit(reg: seq<Config>, phase: nat, order: seq<nat>)
    requires phase > 0 && BootOrder(reg, phase - 1, order)
    ensures StoppedSteps(reg, phase, [BusBoot] + BringUpAll(reg, order) + [CycleDetected])
  {
    var steps := [BusBoot] + BringUpAll(reg, order) + [CycleDetected];
    forall x | IsInit(x)
      ensures x !in [BusBoot] && x !in [CycleDetected]
    {}
    FramedInit(reg, phase - 1, order, [BusBoot], [CycleDetected]);
    forall x | !IsInit(x)
      ensures Times(steps, x) == if x == BusBoot || x == CycleDetected then 1 else 0
    {
      OutsideRefused(reg, phase - 1, order, x);
    }
    assert steps[0] == BusBoot && steps[|steps| - 1] == CycleDetected;
  }

  /** A boot refused for a cycle initialises the earlier phases only. */
  lemma RefusedSteps(reg: seq<Config>, phase: nat, order: seq<nat>, was: seq<FbState>, now: seq<FbState>,
                     log0: seq<Step>, log: seq<Step>)
    requires StoppedAt(reg, phase, order, was, now, log0 + [BusBoot], log)
    ensures log0 <= log && StoppedSteps(reg, phase, log[|log0|..])
  {
    RefusedLog(log0, BringUpAll(reg, order), log);
    RefusedInit(reg, phase, order);
  }
}
