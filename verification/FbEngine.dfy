/** The Functional Block registry and its boot (core/src/registry/fb_engine.c). */
module FbEngine {
  import opened Wrappers
  import opened BootGraph
  import opened BootLog

  const MAX_ENDPOINTS: nat := 64

  datatype Color = White | Gray | Black

  function Whites(colors: seq<Color>): set<nat> {
    set i: nat | i < |colors| && colors[i] == White
  }

  /** What the search keeps: the gray nodes are its stack, a path; the black ones are its
      result, topologically ordered; and it stays inside the phase. */
  ghost predicate Search(reg: seq<Config>, phase: nat, colors: seq<Color>, stack: seq<nat>, order: seq<nat>) {
    && |reg| <= |colors|
    && NoDup(order)
    && IsPath(reg, phase, stack)
    && Topological(reg, phase, order)
    && (forall i: nat :: i in stack <==> i < |colors| && colors[i] == Gray)
    && (forall i: nat :: i in order <==> i < |colors| && colors[i] == Black)
    && (forall i: nat :: i in stack || i in order ==> InPhase(reg, phase, i))
  }

  ghost predicate FirstUnresolved(reg: seq<Config>, i: nat) {
    i < |reg| && !DepsResolve(reg, i) && forall k :: 0 <= k < i ==> DepsResolve(reg, k)
  }

  lemma NextPhase(reg: seq<Config>, phase: nat, order: seq<nat>, sorted: seq<nat>, was: seq<FbState>, now: seq<FbState>, log0: seq<Step>, log: seq<Step>)
    requires FIRST_PHASE <= phase && UpTo(reg, phase - 1, order, was, now, log0, log) && |reg| <= MAX_ENDPOINTS
    requires NoDup(sorted) && Topological(reg, phase, sorted) && !HasCycle(reg, phase)
    requires forall i :: i in sorted <==> InPhase(reg, phase, i)
    ensures forall i :: i in sorted ==> i < |reg|
    ensures |order| + |sorted| <= MAX_ENDPOINTS
    ensures BroughtUp(reg, order, was, now, log0, log)
    ensures BootOrder(reg, phase, order + sorted) && forall q :: FIRST_PHASE <= q <= phase ==> !HasCycle(reg, q)
  {
    AppendPhase(reg, phase, order, sorted);
    BootOrderBound(reg, phase, order + sorted);
  }

  lemma CycleFromStack(reg: seq<Config>, phase: nat, stack: seq<nat>, j: nat)
    requires IsPath(reg, phase, stack) && stack != []
    requires j in stack && Edge(reg, phase, stack[|stack| - 1], j)
    ensures HasCycle(reg, phase)
  {
    var k :| 0 <= k < |stack| && stack[k] == j;
    var nodes := stack[k..] + [j];
    forall m | 0 <= m < |nodes| - 1 ensures Edge(reg, phase, nodes[m], nodes[m + 1]) {
      if m < |nodes| - 2 { assert Edge(reg, phase, stack[k + m], stack[k + m + 1]); }
    }
    assert IsCycle(reg, phase, nodes);
  }

  /** The first d dependency names of idx that lie in the phase are in the result. */
  ghost predicate DepsDone(reg: seq<Config>, phase: nat, idx: nat, d: nat, order: seq<nat>)
    requires idx < |reg|
  {
    forall e, j: nat ::
      0 <= e < d && e < |reg[idx].dependsOn| && j == Resolve(reg, reg[idx].dependsOn[e]) && InPhase(reg, phase, j) ==>
        j in order
  }

  lemma AllDepsDone(reg: seq<Config>, phase: nat, idx: nat, order: seq<nat>)
    requires idx < |reg| && DepsDone(reg, phase, idx, |reg[idx].dependsOn|, order)
    ensures forall j :: Edge(reg, phase, idx, j) ==> j in order
  {}

  lemma OneMoreDep(reg: seq<Config>, phase: nat, idx: nat, d: nat, was: seq<nat>, order: seq<nat>)
    requires idx < |reg| && d < |reg[idx].dependsOn| && DepsDone(reg, phase, idx, d, was)
    requires was <= order
    requires var j := Resolve(reg, reg[idx].dependsOn[d]); j >= 0 && InPhase(reg, phase, j) ==> j in order
    ensures DepsDone(reg, phase, idx, d + 1, order)
  {}

  /** Entering a white block. */
  lemma Enter(reg: seq<Config>, phase: nat, colors: seq<Color>, stack: seq<nat>, order: seq<nat>, idx: nat)
    requires Search(reg, phase, colors, stack, order)
    requires InPhase(reg, phase, idx) && colors[idx] == White
    requires stack != [] ==> Edge(reg, phase, stack[|stack| - 1], idx)
    ensures Search(reg, phase, colors[idx := Gray], stack + [idx], order)
    ensures Whites(colors[idx := Gray]) == Whites(colors) - {idx}
    ensures idx in Whites(colors)
  {
    var path := stack + [idx];
    forall k | 0 <= k < |path| - 1 ensures Edge(reg, phase, path[k], path[k + 1]) {
      if k < |stack| - 1 { assert Edge(reg, phase, stack[k], stack[k + 1]); }
    }
  }

  /** Leaving a block all of whose dependencies in the phase are done. */
  lemma Leave(reg: seq<Config>, phase: nat, colors: seq<Color>, stack: seq<nat>, order: seq<nat>, idx: nat)
    requires Search(reg, phase, colors, stack + [idx], order)
    requires idx !in stack
    requires forall j :: Edge(reg, phase, idx, j) ==> j in order
    ensures idx < |colors| && Search(reg, phase, colors[idx := Black], stack, order + [idx])
    ensures Whites(colors[idx := Black]) == Whites(colors)
    ensures |order| < |reg|
  {
    assert idx in stack + [idx];
    forall k | 0 <= k < |stack| - 1 ensures Edge(reg, phase, stack[k], stack[k + 1]) {
      assert Edge(reg, phase, (stack + [idx])[k], (stack + [idx])[k + 1]);
    }
    var done := order + [idx];
    forall k, j | 0 <= k < |done| && Edge(reg, phase, done[k], j) ensures j in done[..k] {
      if k < |order| { assert done[..k] == order[..k]; } else { assert done[..k] == order; }
    }
    forall i: nat ensures i in stack <==> i < |colors| && colors[idx := Black][i] == Gray {
      assert i in stack + [idx] <==> i in stack || i == idx;
    }
    forall k | 0 <= k < |done| ensures done[k] < |reg| {
      if k < |order| { assert order[k] in order; }
    }
    NoDupBound(done, |reg|);
  }

  /** phaseSet marks exactly the blocks of the phase. */
  ghost predicate Marks(reg: seq<Config>, phase: nat, phaseSet: seq<bool>) {
    forall i: nat :: i < |phaseSet| ==> phaseSet[i] == InPhase(reg, phase, i)
  }

  /** While the dependencies of a gray block are visited: the search goes on below it, nothing of the result
      has been taken back, and the first d dependencies are done. */
  ghost predicate Visiting(reg: seq<Config>, phase: nat, colors: seq<Color>, stack: seq<nat>, idx: nat, d: nat,
                           before: seq<nat>, order: seq<nat>, whites: set<nat>)
  {
    && idx < |reg| && d <= |reg[idx].dependsOn|
    && Search(reg, phase, colors, stack + [idx], order)
    && DepsDone(reg, phase, idx, d, order)
    && before <= order
    && Whites(colors) <= whites - {idx}
  }

  lemma Begin(reg: seq<Config>, phase: nat, colors: seq<Color>, stack: seq<nat>, order: seq<nat>, idx: nat)
    requires Search(reg, phase, colors, stack, order)
    requires InPhase(reg, phase, idx) && colors[idx] == White
    requires stack != [] ==> Edge(reg, phase, stack[|stack| - 1], idx)
    ensures Visiting(reg, phase, colors[idx := Gray], stack, idx, 0, order, order, Whites(colors))
    ensures idx in Whites(colors)
  {
    Enter(reg, phase, colors, stack, order, idx);
  }

  /** A dependency of the phase found gray closes a cycle; found white it may be visited. */
  lemma Found(reg: seq<Config>, phase: nat, colors: seq<Color>, stack: seq<nat>, idx: nat, d: nat,
              before: seq<nat>, order: seq<nat>, whites: set<nat>, dep: nat)
    requires Visiting(reg, phase, colors, stack, idx, d, before, order, whites) && d < |reg[idx].dependsOn|
    requires InPhase(reg, phase, idx) && dep == Resolve(reg, reg[idx].dependsOn[d]) && InPhase(reg, phase, dep)
    ensures dep < |colors| && (stack + [idx])[|stack|] == idx && Edge(reg, phase, idx, dep)
    ensures colors[dep] == Gray ==> HasCycle(reg, phase)
    ensures colors[dep] == Black ==> dep in order
  {
    assert DependsOn(reg, idx, dep);
    if colors[dep] == Gray {
      CycleFromStack(reg, phase, stack + [idx], dep);
    }
  }

  /** The next dependency is outside the phase or in the result by now. */
  lemma OnDep(reg: seq<Config>, phase: nat, colors: seq<Color>, stack: seq<nat>, idx: nat, d: nat,
              before: seq<nat>, order: seq<nat>, whites: set<nat>, colors1: seq<Color>, order1: seq<nat>)
    requires Visiting(reg, phase, colors, stack, idx, d, before, order, whites) && d < |reg[idx].dependsOn|
    requires Search(reg, phase, colors1, stack + [idx], order1) && order <= order1 && Whites(colors1) <= Whites(colors)
    requires var j := Resolve(reg, reg[idx].dependsOn[d]); j >= 0 && InPhase(reg, phase, j) ==> j in order1
    ensures Visiting(reg, phase, colors1, stack, idx, d + 1, before, order1, whites)
  {
    OneMoreDep(reg, phase, idx, d, order, order1);
  }

  /** All dependencies done: the block turns black and joins the result. */
  lemma Finish(reg: seq<Config>, phase: nat, colors: seq<Color>, stack: seq<nat>, idx: nat,
               before: seq<nat>, order: seq<nat>, whites: set<nat>)
    requires idx < |reg| && idx !in stack
    requires Visiting(reg, phase, colors, stack, idx, |reg[idx].dependsOn|, before, order, whites)
    ensures idx < |colors| && Search(reg, phase, colors[idx := Black], stack, order + [idx])
    ensures Whites(colors[idx := Black]) <= whites && |order| < |reg| && before <= order + [idx]
  {
    AllDepsDone(reg, phase, idx, order);
    Leave(reg, phase, colors, stack, order, idx);
  }

  lemma OneMore(order: seq<nat>, block: seq<nat>, j: nat)
    requires j < |block|
    ensures order + block[..j] + [block[j]] == order + block[..j + 1]
  {}

  lemma BootOrderBound(reg: seq<Config>, last: nat, order: seq<nat>)
    requires BootOrder(reg, last, order)
    ensures |order| <= |reg|
    ensures forall i :: i in order ==> i < |reg|
  {
    forall k | 0 <= k < |order| ensures order[k] < |reg| {
      assert order[k] in order && InPhases(reg, last, order[k]);
    }
    NoDupBound(order, |reg|);
  }

  class Engine {
    var registry: seq<Config>
    const states: array<FbState>
    var booted: bool
    const bootOrder: array<nat>
    var bootCount: nat
    var log: seq<Step>

    ghost predicate Valid()
      reads this, states, bootOrder
    {
      && states.Length == bootOrder.Length == MAX_ENDPOINTS
      && |registry| <= MAX_ENDPOINTS
      && bootCount <= MAX_ENDPOINTS
      && states as object != bootOrder as object
    }

    constructor ()
      ensures Valid() && registry == [] && !booted && bootCount == 0 && log == []
      ensures fresh(states) && fresh(bootOrder)
      ensures forall i :: 0 <= i < MAX_ENDPOINTS ==> states[i] == Idle
    {
      registry := [];
      states := new FbState[MAX_ENDPOINTS](_ => Idle);
      bootOrder := new nat[MAX_ENDPOINTS](_ => 0);
      booted := false;
      bootCount := 0;
      log := [];
    }

    /** The handle of a block is its registry index; None stands for a NULL configuration. */
    method Register(config: Option<Config>) returns (handle: Option<nat>)
      requires Valid()
      modifies this`registry, states
      ensures Valid()
      ensures handle.Some? <==> config.Some? && !booted && |old(registry)| < MAX_ENDPOINTS
      ensures handle.None? ==> registry == old(registry) && states[..] == old(states[..])
      ensures handle.Some? ==> handle.value == |old(registry)| && registry == old(registry) + [config.value]
      ensures handle.Some? ==> states[..] == old(states[..])[handle.value := Idle]
    {
      if config.None? || booted || |registry| >= MAX_ENDPOINTS {
        return None;
      }
      handle := Some(|registry|);
      states[|registry|] := Idle;
      registry := registry + [config.value];
    }

    method FindByName(name: string) returns (i: int)
      ensures i == Resolve(registry, name)
    {
      for k := 0 to |registry|
        invariant forall m :: 0 <= m < k ==> registry[m].name != Some(name)
      {
        if registry[k].name == Some(name) {
          return k;
        }
      }
      return -1;
    }

    /** Visits a white block.  On success its whole unvisited part of the phase is appended
        to `result` in dependency order; failure means the phase has a cycle. */
    method TopoDfs(idx: nat, colors: array<Color>, phaseSet: array<bool>, result: array<nat>, count: nat,
                   ghost phase: nat, ghost stack: seq<nat>)
      returns (ok: bool, newCount: nat)
      requires Valid() && colors.Length == phaseSet.Length == result.Length == MAX_ENDPOINTS
      requires colors as object != phaseSet as object && result as object != phaseSet as object
      requires Marks(registry, phase, phaseSet[..])
      requires InPhase(registry, phase, idx) && colors[idx] == White && count <= MAX_ENDPOINTS
      requires Search(registry, phase, colors[..], stack, result[..count])
      requires stack != [] ==> Edge(registry, phase, stack[|stack| - 1], idx)
      modifies colors, result
      ensures newCount <= MAX_ENDPOINTS
      ensures !ok ==> HasCycle(registry, phase)
      ensures ok ==> count <= newCount && old(result[..count]) <= result[..newCount]
      ensures ok ==> idx in result[..newCount]
      ensures ok ==> Search(registry, phase, colors[..], stack, result[..newCount])
      ensures Whites(colors[..]) <= old(Whites(colors[..]))
      decreases Whites(colors[..]), 0
    {
      ghost var before, whites := result[..count], Whites(colors[..]);
      assert idx !in stack;
      Begin(registry, phase, colors[..], stack, before, idx);
      newCount := count;
      Paint(colors, idx, Gray);
      for d := 0 to |registry[idx].dependsOn|
        invariant count <= newCount <= MAX_ENDPOINTS
        invariant Visiting(registry, phase, colors[..], stack, idx, d, before, result[..newCount], whites)
      {
        ok, newCount := VisitDep(idx, d, colors, phaseSet, result, newCount, phase, stack, before, whites);
        if !ok {
          return false, newCount;
        }
      }
      Finish(registry, phase, colors[..], stack, idx, before, result[..newCount], whites);
      Paint(colors, idx, Black);
      newCount := Append(result, newCount, idx);
      ok := true;
    }

    /** The body of the dependency loop. */
    method VisitDep(idx: nat, d: nat, colors: array<Color>, phaseSet: array<bool>, result: array<nat>, count: nat,
                    ghost phase: nat, ghost stack: seq<nat>, ghost before: seq<nat>, ghost whites: set<nat>)
      returns (ok: bool, newCount: nat)
      requires Valid() && colors.Length == phaseSet.Length == result.Length == MAX_ENDPOINTS
      requires colors as object != phaseSet as object && result as object != phaseSet as object
      requires Marks(registry, phase, phaseSet[..])
      requires InPhase(registry, phase, idx) && d < |registry[idx].dependsOn| && count <= MAX_ENDPOINTS
      requires Visiting(registry, phase, colors[..], stack, idx, d, before, result[..count], whites)
      modifies colors, result
      ensures count <= newCount <= MAX_ENDPOINTS || !ok
      ensures newCount <= MAX_ENDPOINTS
      ensures !ok ==> HasCycle(registry, phase)
      ensures ok ==> Visiting(registry, phase, colors[..], stack, idx, d + 1, before, result[..newCount], whites)
      ensures Whites(colors[..]) <= old(Whites(colors[..]))
      decreases Whites(colors[..]), 1
    {
      ghost var c, order := colors[..], result[..count];
      newCount := count;
      var dep := FindByName(registry[idx].dependsOn[d]);
      if dep >= 0 && phaseSet[dep] {
        Found(registry, phase, c, stack, idx, d, before, order, whites, dep);
        if colors[dep] == Gray {
          return false, newCount;
        }
        if colors[dep] == White {
          ok, newCount := TopoDfs(dep, colors, phaseSet, result, newCount, phase, stack + [idx]);
          if !ok {
            return false, newCount;
          }
        }
      }
      OnDep(registry, phase, c, stack, idx, d, before, order, whites, colors[..], result[..newCount]);
      ok := true;
    }

    /** Colours one block. */
    method Paint(colors: array<Color>, idx: nat, color: Color)
      requires idx < colors.Length
      modifies colors
      ensures colors[..] == old(colors[..])[idx := color]
    {
      colors[idx] := color;
    }

    /** Appends one index to the result. */
    method Append(result: array<nat>, count: nat, idx: nat) returns (newCount: nat)
      requires count < result.Length
      modifies result
      ensures newCount == count + 1 && result[..newCount] == old(result[..count]) + [idx]
    {
      result[count] := idx;
      newCount := count + 1;
    }

    /** The blocks of one phase, as a list and as a membership table. */
    method CollectPhase(phase: nat) returns (indices: array<nat>, phaseCount: nat, phaseSet: array<bool>)
      requires Valid()
      ensures fresh(indices) && fresh(phaseSet) && indices.Length == phaseSet.Length == MAX_ENDPOINTS
      ensures phaseCount <= |registry|
      ensures Marks(registry, phase, phaseSet[..])
      ensures forall k: nat :: k in indices[..phaseCount] <==> InPhase(registry, phase, k)
    {
      indices := new nat[MAX_ENDPOINTS](_ => 0);
      phaseCount := 0;
      phaseSet := new bool[MAX_ENDPOINTS](_ => false);
      for i := 0 to |registry|
        invariant phaseCount <= i
        invariant forall k: nat :: k < MAX_ENDPOINTS ==> phaseSet[k] == (k < i && InPhase(registry, phase, k))
        invariant forall k: nat :: k in indices[..phaseCount] <==> k < i && InPhase(registry, phase, k)
      {
        if registry[i].bootPhase == phase {
          ghost var was := indices[..phaseCount];
          indices[phaseCount] := i;
          phaseCount := phaseCount + 1;
          phaseSet[i] := true;
          assert indices[..phaseCount] == was + [i];
        }
      }
    }

    /** One phase: collect its blocks and sort them. */
    method SortPhase(phase: nat) returns (ok: bool, sorted: array<nat>, count: nat)
      requires Valid()
      ensures sorted.Length == MAX_ENDPOINTS && fresh(sorted) && count <= MAX_ENDPOINTS
      ensures ok <==> !HasCycle(registry, phase)
      ensures ok ==> NoDup(sorted[..count]) && Topological(registry, phase, sorted[..count])
      ensures ok ==> forall i: nat :: i in sorted[..count] <==> InPhase(registry, phase, i)
    {
      var indices, phaseCount, phaseSet := CollectPhase(phase);
      ghost var all := indices[..phaseCount];
      var colors := new Color[MAX_ENDPOINTS](_ => White);
      sorted := new nat[MAX_ENDPOINTS](_ => 0);
      count := 0;
      ok := true;
      for j := 0 to phaseCount
        invariant count <= MAX_ENDPOINTS
        invariant Search(registry, phase, colors[..], [], sorted[..count])
        invariant indices[..phaseCount] == all
        invariant Marks(registry, phase, phaseSet[..])
        invariant forall k :: 0 <= k < j ==> all[k] in sorted[..count]
      {
        var idx := indices[j];
        assert idx == all[j] && idx in all;
        if colors[idx] == White {
          ghost var was := sorted[..count];
          ok, count := TopoDfs(idx, colors, phaseSet, sorted, count, phase, []);
          if !ok {
            return;
          }
          assert was <= sorted[..count];
        }
      }
      forall i: nat | InPhase(registry, phase, i) ensures i in sorted[..count] {
        assert i in all;
      }
      TopologicalHasNoCycle(registry, phase, sorted[..count]);
    }
  
    /** The first block, in registration order, with an unknown dependency name. */
    method FirstMissing() returns (missing: Option<nat>)
      requires Valid()
      ensures missing.None? <==> AllResolve(registry)
      ensures missing.Some? ==> FirstUnresolved(registry, missing.value)
    {
      for i := 0 to |registry|
        invariant forall k :: 0 <= k < i ==> DepsResolve(registry, k)
      {
        for d := 0 to |registry[i].dependsOn|
          invariant forall e :: 0 <= e < d ==> Resolve(registry, registry[i].dependsOn[e]) >= 0
        {
          var dep := FindByName(registry[i].dependsOn[d]);
          if dep < 0 {
            assert !DepsResolve(registry, i);
            return Some(i);
          }
        }
      }
      return None;
    }
  
    /** Brings up one block: state changes, its init function, its place in the boot order. */
    method InitBlock(idx: nat, ghost was: seq<FbState>, ghost log0: seq<Step>)
      requires Valid() && idx < |registry| && bootCount < MAX_ENDPOINTS
      requires BroughtUp(registry, bootOrder[..bootCount], was, states[..], log0, log)
      modifies this`bootCount, this`log, states, bootOrder
      ensures Valid() && bootCount == old(bootCount) + 1
      ensures bootOrder[..bootCount] == old(bootOrder[..bootCount]) + [idx]
      ensures BroughtUp(registry, bootOrder[..bootCount], was, states[..], log0, log)
    {
      ghost var order, now, before := bootOrder[..bootCount], states[..], log;
      BringUpOne(registry, order, idx, was, now, log0, log);
      states[idx] := Initialising;
      log := log + [Lifecycle(idx, Initialising)];
      if registry[idx].hasInit {
        log := log + [InitCall(idx)];
      }
      states[idx] := Running;
      log := log + [Lifecycle(idx, Running)];
      bootOrder[bootCount] := idx;
      bootCount := bootCount + 1;
      assert states[..] == now[idx := Running] && log == before + BringUp(registry, idx);
      assert bootOrder[..bootCount] == order + [idx];
    }

    /** Brings up one sorted phase after the phases already up. */
    method InitPhase(sorted: array<nat>, count: nat, ghost was: seq<FbState>, ghost log0: seq<Step>)
      requires Valid() && sorted.Length == MAX_ENDPOINTS && count <= MAX_ENDPOINTS
      requires sorted as object != bootOrder as object && sorted as object != states as object
      requires forall i :: i in sorted[..count] ==> i < |registry|
      requires bootCount + count <= MAX_ENDPOINTS
      requires BroughtUp(registry, bootOrder[..bootCount], was, states[..], log0, log)
      modifies this`bootCount, this`log, states, bootOrder
      ensures Valid()
      ensures bootOrder[..bootCount] == old(bootOrder[..bootCount]) + sorted[..count]
      ensures BroughtUp(registry, bootOrder[..bootCount], was, states[..], log0, log)
    {
      ghost var order, block := bootOrder[..bootCount], sorted[..count];
      for j := 0 to count
        invariant Valid() && bootCount == |order| + j
        invariant sorted[..count] == block && |block| == count
        invariant bootOrder[..bootCount] == order + block[..j]
        invariant BroughtUp(registry, bootOrder[..bootCount], was, states[..], log0, log)
      {
        var idx := sorted[j];
        assert idx == block[j] && idx in block;
        InitBlock(idx, was, log0);
        OneMore(order, block, j);
      }
      assert block[..count] == block;
    }

    /** A phase with a cycle is logged, and nothing of it touched. */
    method Refuse(ghost phase: nat, ghost was: seq<FbState>, ghost log0: seq<Step>)
      requires Valid() && FIRST_PHASE <= phase <= LAST_PHASE && HasCycle(registry, phase)
      requires UpTo(registry, phase - 1, bootOrder[..bootCount], was, states[..], log0, log)
      modifies this`log
      ensures Valid() && log == old(log) + [CycleDetected]
      ensures StoppedAt(registry, phase, bootOrder[..bootCount], was, states[..], log0, log)
    {
      Stop(registry, phase, bootOrder[..bootCount], was, states[..], log0, log);
      log := log + [CycleDetected];
    }

    /** One phase: sorted, and then brought up unless it has a cycle. */
    method BootPhase(phase: nat, ghost was: seq<FbState>, ghost log0: seq<Step>) returns (ok: bool)
      requires Valid() && FIRST_PHASE <= phase <= LAST_PHASE
      requires UpTo(registry, phase - 1, bootOrder[..bootCount], was, states[..], log0, log)
      modifies this`bootCount, this`log, states, bootOrder
      ensures Valid()
      ensures ok ==> UpTo(registry, phase, bootOrder[..bootCount], was, states[..], log0, log)
      ensures !ok ==> StoppedAt(registry, phase, bootOrder[..bootCount], was, states[..], log0, log)
    {
      var sorted, count;
      ok, sorted, count := SortPhase(phase);
      if !ok {
        Refuse(phase, was, log0);
        return;
      }
      NextPhase(registry, phase, bootOrder[..bootCount], sorted[..count], was, states[..], log0, log);
      InitPhase(sorted, count, was, log0);
    }

    method BootPhases(ghost was: seq<FbState>, ghost log0: seq<Step>) returns (ok: bool)
      requires Valid()
      requires bootCount == 0 && was == states[..] && log == log0
      modifies this`bootCount, this`log, states, bootOrder
      ensures Valid()
      ensures ok ==> forall p :: FIRST_PHASE <= p <= LAST_PHASE ==> !HasCycle(registry, p)
      ensures ok ==> BootOrder(registry, LAST_PHASE, bootOrder[..bootCount])
      ensures ok ==> BroughtUp(registry, bootOrder[..bootCount], was, states[..], log0, log)
      ensures !ok ==> exists p :: StoppedAt(registry, p, bootOrder[..bootCount], was, states[..], log0, log)
    {
      assert bootOrder[..bootCount] == [];
      assert log0 + BringUpAll(registry, []) == log0;
      for phase := FIRST_PHASE to LAST_PHASE + 1
        invariant Valid() && UpTo(registry, phase - 1, bootOrder[..bootCount], was, states[..], log0, log)
      {
        ok := BootPhase(phase, was, log0);
        if !ok {
          return;
        }
      }
      return true;
    }

    /** Creates the dispatch semaphores. */
    method CreateSemaphores()
      requires Valid()
      modifies this`log
      ensures log == old(log) + Semaphores(registry, |registry|)
    {
      for i := 0 to |registry|
        invariant log == old(log) + Semaphores(registry, i)
      {
        if registry[i].subscribes {
          log := log + [SemaphoreCreated(i)];
        }
      }
    }

    /** Succeeds exactly when every dependency name resolves and no phase has a cycle. */
    method Boot() returns (ok: bool)
      requires Valid()
      modifies this`booted, this`bootCount, this`log, states, bootOrder
      ensures Valid()
      ensures old(booted) ==> ok && booted && log == old(log) && states[..] == old(states[..])
                              && bootCount == old(bootCount) && bootOrder[..] == old(bootOrder[..])
      ensures !old(booted) ==> booted == ok
      ensures !old(booted) ==>
                (ok <==> AllResolve(registry) && forall p :: FIRST_PHASE <= p <= LAST_PHASE ==> !HasCycle(registry, p))
      ensures !old(booted) && ok ==>
                BootOrder(registry, LAST_PHASE, bootOrder[..bootCount])
                && Booted(registry, bootOrder[..bootCount], old(states[..]), states[..], old(log), log)
      ensures !old(booted) && ok ==> old(log) <= log && BootSteps(registry, log[|old(log)|..])
      ensures !old(booted) && !AllResolve(registry) ==>
                states[..] == old(states[..])
                && exists i :: FirstUnresolved(registry, i) && log == old(log) + [BusBoot] + [MissingDependency(i)]
      ensures !old(booted) && !ok && AllResolve(registry) ==>
                exists p :: StoppedAt(registry, p, bootOrder[..bootCount], old(states[..]), states[..], old(log) + [BusBoot], log)
                            && old(log) <= log && StoppedSteps(registry, p, log[|old(log)|..])
    {
      if booted {
        return true;
      }
      bootCount := 0;
      log := log + [BusBoot];
      var missing := FirstMissing();
      if missing.Some? {
        log := log + [MissingDependency(missing.value)];
        return false;
      }
      ghost var was := states[..];
      ok := BootPhases(was, log);
      if ok {
        ghost var up := log;
        CreateSemaphores();
        log := log + [NotifySet];
        booted := true;
        AllUp(registry, bootOrder[..bootCount], was, states[..], old(log), up, log);
        BootedSteps(registry, bootOrder[..bootCount], was, states[..], old(log), log);
      } else {
        ghost var p :| StoppedAt(registry, p, bootOrder[..bootCount], was, states[..], old(log) + [BusBoot], log);
        RefusedSteps(registry, p, bootOrder[..bootCount], was, states[..], old(log), log);
      }
    }
  }
}
