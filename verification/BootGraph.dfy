/** The dependency graph that boot works on, and what a correct initialisation order is. */
module BootGraph {
  import opened Wrappers

  /** The part of a Functional Block's configuration that boot reads. */
  datatype Config = Config(
    name: Option<string>,
    dependsOn: seq<string>,
    bootPhase: nat,
    hasInit: bool,
    subscribes: bool)

  const FIRST_PHASE := 1
  const LAST_PHASE := 4

  /** The first registered block with that name, or -1. */
  function Resolve(reg: seq<Config>, name: string): (i: int)
    ensures -1 <= i < |reg|
    ensures i >= 0 ==> reg[i].name == Some(name) && forall k :: 0 <= k < i ==> reg[k].name != Some(name)
    ensures i < 0 ==> forall k :: 0 <= k < |reg| ==> reg[k].name != Some(name)
  {
    ResolveFrom(reg, name, 0)
  }

  function ResolveFrom(reg: seq<Config>, name: string, from: nat): (i: int)
    requires from <= |reg|
    requires forall k :: 0 <= k < from ==> reg[k].name != Some(name)
    ensures -1 <= i < |reg|
    ensures i >= 0 ==> reg[i].name == Some(name) && forall k :: 0 <= k < i ==> reg[k].name != Some(name)
    ensures i < 0 ==> forall k :: 0 <= k < |reg| ==> reg[k].name != Some(name)
    decreases |reg| - from
  {
    if from == |reg| then -1
    else if reg[from].name == Some(name) then from
    else ResolveFrom(reg, name, from + 1)
  }

  ghost predicate DependsOn(reg: seq<Config>, i: nat, j: nat) {
    i < |reg| && j < |reg| && exists d :: 0 <= d < |reg[i].dependsOn| && Resolve(reg, reg[i].dependsOn[d]) == j
  }

  ghost predicate DepsResolve(reg: seq<Config>, i: nat)
    requires i < |reg|
  {
    forall d :: 0 <= d < |reg[i].dependsOn| ==> Resolve(reg, reg[i].dependsOn[d]) >= 0
  }

  ghost predicate AllResolve(reg: seq<Config>) {
    forall i :: 0 <= i < |reg| ==> DepsResolve(reg, i)
  }

  predicate InPhase(reg: seq<Config>, phase: nat, i: nat) {
    i < |reg| && reg[i].bootPhase == phase
  }

  /** A dependency inside one boot phase. */
  ghost predicate Edge(reg: seq<Config>, phase: nat, i: nat, j: nat) {
    InPhase(reg, phase, i) && InPhase(reg, phase, j) && DependsOn(reg, i, j)
  }

  ghost predicate IsPath(reg: seq<Config>, phase: nat, nodes: seq<nat>) {
    forall k :: 0 <= k < |nodes| - 1 ==> Edge(reg, phase, nodes[k], nodes[k + 1])
  }

  ghost predicate IsCycle(reg: seq<Config>, phase: nat, nodes: seq<nat>) {
    |nodes| >= 2 && nodes[0] == nodes[|nodes| - 1] && IsPath(reg, phase, nodes)
  }

  ghost predicate HasCycle(reg: seq<Config>, phase: nat) {
    exists nodes :: IsCycle(reg, phase, nodes)
  }

  ghost predicate NoDup(s: seq<nat>) {
    forall i, j :: 0 <= i < j < |s| ==> s[i] != s[j]
  }

  /** Within one phase: each dependency stands before its dependent. */
  ghost predicate Topological(reg: seq<Config>, phase: nat, order: seq<nat>) {
    forall k, j :: 0 <= k < |order| && Edge(reg, phase, order[k], j) ==> j in order[..k]
  }

  predicate InPhases(reg: seq<Config>, last: nat, i: nat) {
    i < |reg| && FIRST_PHASE <= reg[i].bootPhase <= last
  }

  /** A correct initialisation order of the phases FIRST_PHASE..last: every block of those
      phases once, phases never going back, every dependency on the same or an earlier of
      these phases served first. */
  ghost predicate BootOrder(reg: seq<Config>, last: nat, order: seq<nat>) {
    && NoDup(order)
    && (forall i: nat :: i in order <==> InPhases(reg, last, i))
    && (forall a, b :: 0 <= a < b < |order| && InPhases(reg, last, order[a]) && InPhases(reg, last, order[b]) ==>
          reg[order[a]].bootPhase <= reg[order[b]].bootPhase)
    && (forall a, j: nat :: 0 <= a < |order| && DependsOn(reg, order[a], j) && InPhases(reg, reg[order[a]].bootPhase, j) ==>
          j in order[..a])
  }

  lemma {:induction false} NoDupBound(s: seq<nat>, n: nat)
    requires NoDup(s) && forall i :: 0 <= i < |s| ==> s[i] < n
    ensures |s| <= n
  {
    if s != [] {
      var first := s[0];
      if n == 0 {
        assert false;
      } else if exists k :: 0 <= k < |s| && s[k] == n - 1 {
        var k :| 0 <= k < |s| && s[k] == n - 1;
        NoDupBound(s[..k] + s[k + 1..], n - 1);
      } else {
        NoDupBound(s, n - 1);
      }
    }
  }

  /** Along a path every node lies strictly before the first one. */
  lemma {:induction false} PathDescends(reg: seq<Config>, phase: nat, order: seq<nat>, nodes: seq<nat>, a: nat)
    requires Topological(reg, phase, order) && IsPath(reg, phase, nodes)
    requires |nodes| >= 2 && a < |order| && nodes[0] == order[a]
    ensures nodes[|nodes| - 1] in order[..a]
    decreases |nodes|
  {
    assert Edge(reg, phase, nodes[0], nodes[1]);
    if |nodes| > 2 {
      var b :| 0 <= b < a && order[b] == nodes[1];
      var rest := nodes[1..];
      forall k | 0 <= k < |rest| - 1 ensures Edge(reg, phase, rest[k], rest[k + 1]) {
        assert Edge(reg, phase, nodes[k + 1], nodes[k + 2]);
      }
      PathDescends(reg, phase, order, rest, b);
      assert rest[|rest| - 1] == nodes[|nodes| - 1];
    }
  }

  /** A topological order that holds the whole phase leaves no room for a cycle. */
  lemma TopologicalHasNoCycle(reg: seq<Config>, phase: nat, order: seq<nat>)
    requires NoDup(order) && Topological(reg, phase, order)
    requires forall i :: InPhase(reg, phase, i) ==> i in order
    ensures !HasCycle(reg, phase)
  {
    if nodes :| IsCycle(reg, phase, nodes) {
      assert Edge(reg, phase, nodes[0], nodes[1]);
      var a :| 0 <= a < |order| && order[a] == nodes[0];
      PathDescends(reg, phase, order, nodes, a);
      assert false;
    }
  }

  /** No correct order exists for a registry with a cycle: refusing to boot it is forced. */
  lemma CycleForbidsOrder(reg: seq<Config>, phase: nat, last: nat, order: seq<nat>)
    requires FIRST_PHASE <= phase <= last && HasCycle(reg, phase)
    ensures !BootOrder(reg, last, order)
  {
    if BootOrder(reg, last, order) {
      forall k, j | 0 <= k < |order| && Edge(reg, phase, order[k], j) ensures j in order[..k] {
        assert DependsOn(reg, order[k], j);
      }
      TopologicalHasNoCycle(reg, phase, order);
    }
  }

  /** Appending a sorted phase to a correct order of the earlier ones. */
  lemma AppendPhase(reg: seq<Config>, phase: nat, order: seq<nat>, sorted: seq<nat>)
    requires FIRST_PHASE <= phase && BootOrder(reg, phase - 1, order)
    requires NoDup(sorted) && Topological(reg, phase, sorted)
    requires forall i :: i in sorted <==> InPhase(reg, phase, i)
    ensures BootOrder(reg, phase, order + sorted)
  {
    var both := order + sorted;
    forall i: nat ensures i in both <==> InPhases(reg, phase, i) {
      assert i in order <==> InPhases(reg, phase - 1, i);
    }
    forall a, b | 0 <= a < b < |both| ensures both[a] != both[b] {
      AppendOrdered(reg, phase, order, sorted, a, b);
    }
    forall a, b | 0 <= a < b < |both| && InPhases(reg, phase, both[a]) && InPhases(reg, phase, both[b])
      ensures reg[both[a]].bootPhase <= reg[both[b]].bootPhase
    {
      AppendOrdered(reg, phase, order, sorted, a, b);
    }
    forall a, j: nat | 0 <= a < |both| && DependsOn(reg, both[a], j) && InPhases(reg, reg[both[a]].bootPhase, j)
      ensures j in both[..a]
    {
      AppendServed(reg, phase, order, sorted, a, j);
    }
  }

  lemma AppendServed(reg: seq<Config>, phase: nat, order: seq<nat>, sorted: seq<nat>, a: nat, j: nat)
    requires FIRST_PHASE <= phase && BootOrder(reg, phase - 1, order)
    requires Topological(reg, phase, sorted) && forall i :: i in sorted <==> InPhase(reg, phase, i)
    requires a < |order + sorted| && DependsOn(reg, (order + sorted)[a], j)
    requires InPhases(reg, reg[(order + sorted)[a]].bootPhase, j)
    ensures j in (order + sorted)[..a]
  {
    var both := order + sorted;
    if a < |order| {
      assert j in order[..a] && both[..a] == order[..a];
    } else {
      var k := a - |order|;
      assert sorted[k] in sorted;
      assert both[..a] == order + sorted[..k];
      if reg[j].bootPhase == phase {
        assert Edge(reg, phase, sorted[k], j);
      } else {
        assert j in order;
      }
    }
  }

  lemma AppendOrdered(reg: seq<Config>, phase: nat, order: seq<nat>, sorted: seq<nat>, a: nat, b: nat)
    requires FIRST_PHASE <= phase && BootOrder(reg, phase - 1, order)
    requires NoDup(sorted) && forall i :: i in sorted <==> InPhase(reg, phase, i)
    requires a < b < |order + sorted|
    ensures (order + sorted)[a] != (order + sorted)[b]
    ensures InPhases(reg, phase, (order + sorted)[a]) && InPhases(reg, phase, (order + sorted)[b])
    ensures reg[(order + sorted)[a]].bootPhase <= reg[(order + sorted)[b]].bootPhase
  {
    if a < |order| {
      assert order[a] in order && InPhases(reg, phase - 1, order[a]);
    } else {
      assert sorted[a - |order|] in sorted;
    }
    if b < |order| {
      assert order[b] in order && InPhases(reg, phase - 1, order[b]);
    } else {
      assert sorted[b - |order|] in sorted;
    }
  }

  ghost predicate DependenciesFirst(reg: seq<Config>, order: seq<nat>) {
    forall a, j: nat :: 0 <= a < |order| && DependsOn(reg, order[a], j) ==> j in order[..a]
  }

  /** No block that is booted depends on a later phase, or on one that is never booted. */
  ghost predicate NoForwardDependency(reg: seq<Config>) {
    forall i: nat, j: nat :: InPhases(reg, LAST_PHASE, i) && DependsOn(reg, i, j) ==> InPhases(reg, reg[i].bootPhase, j)
  }

  /** A correct order serves every dependency first exactly when none of them points forward;
      boot does not refuse the ones that do. */
  lemma DependenciesFirstIff(reg: seq<Config>, order: seq<nat>)
    requires BootOrder(reg, LAST_PHASE, order)
    ensures DependenciesFirst(reg, order) <==> NoForwardDependency(reg)
  {
    if DependenciesFirst(reg, order) {
      forall i: nat, j: nat | InPhases(reg, LAST_PHASE, i) && DependsOn(reg, i, j) ensures InPhases(reg, reg[i].bootPhase, j) {
        var a :| 0 <= a < |order| && order[a] == i;
        var b :| 0 <= b < a && order[b] == j;
        assert order[b] in order && InPhases(reg, LAST_PHASE, order[b]);
      }
    }
    if NoForwardDependency(reg) {
      forall a, j: nat | 0 <= a < |order| && DependsOn(reg, order[a], j) ensures j in order[..a] {
        assert order[a] in order;
      }
    }
  }

  /** The header's rule that a dependency on a later phase is a boot fault is not enforced:
      this registry passes every check of boot. */
  lemma ForwardDependencyAccepted()
    ensures var reg := [Config(Some("driver"), ["app"], 2, true, true), Config(Some("app"), [], 3, true, true)];
            AllResolve(reg) && BootOrder(reg, LAST_PHASE, [0, 1]) && !DependenciesFirst(reg, [0, 1])
  {
    var reg := [Config(Some("driver"), ["app"], 2, true, true), Config(Some("app"), [], 3, true, true)];
    var order: seq<nat> := [0, 1];
    assert reg[1].name == Some("app");
    assert Resolve(reg, "app") == 1;
    assert Resolve(reg, reg[0].dependsOn[0]) == 1;
    assert DependsOn(reg, 0, 1);
    forall i: nat ensures i in order <==> InPhases(reg, LAST_PHASE, i) {
      assert order[0] in order && order[1] in order;
    }
    forall i | 0 <= i < |reg| ensures DepsResolve(reg, i) {}
    assert order[0] == 0 && 1 !in order[..0];
  }
}
