/** Where every message goes while publishers and dispatch threads interleave: the bus policy, which takes
    several queue operations, seen over the runs of the Dispatch state machine
    (core/src/bus/message_bus.c, core/src/registry/fb_engine.c). */
module DispatchFlow {
  import opened Wrappers
  import opened Dispatch
  import BusQueues

  /** What one step means to the messages of an endpoint. */
  datatype Effect =
    | Started(ep: nat, prio: nat, msg: Msg)                // a publisher begins a delivery
    | Pushed(ep: nat, prio: nat, msg: Msg, retried: bool)  // stored; a retried push is counted as a drop
    | Refused(ep: nat, prio: nat, msg: Msg)                // given up, counted as a drop
    | Evicted(ep: nat, prio: nat, msg: Msg)                // the oldest message removed by a publisher
    | Missed(ep: nat, prio: nat, msg: Msg)                 // its publisher came to evict from an empty queue
    | Taken(ep: nat, prio: nat, msg: Msg)                  // removed by the dispatch thread
    | Nothing

  function PublisherEffect(e: Endpoint, p: Publisher): Effect
    requires |e.queues| == 3 && !p.Idle? && (p.Send? ==> p.prio < 3)
  {
    match p
    case Send(ep, prio, msg) =>
      if !Full(e, prio) then Pushed(ep, prio, msg, false) else if prio == 2 then Refused(ep, prio, msg) else Nothing
    case DropOldest(ep, msg) => if e.queues[1] != [] then Evicted(ep, 1, e.queues[1][0]) else Missed(ep, 1, msg)
    case Resend(ep, msg) => if !Full(e, 1) then Pushed(ep, 1, msg, true) else Refused(ep, 1, msg)
    case Notify(_) => Nothing
  }

  function ThreadEffect(e: Endpoint, i: nat): Effect
    requires |e.queues| == 3 && (e.thread.Scan? ==> e.thread.prio < 3)
  {
    if e.thread.Scan? && e.queues[e.thread.prio] != [] then Taken(i, e.thread.prio, e.queues[e.thread.prio][0]) else Nothing
  }

  function EffectOf(s: State, l: Label): Effect
    requires WellFormed(s) && Step(s, l).Some?
  {
    match l
    case Publish(_, ep, prio, msg) => Started(ep, prio, msg)
    case PublisherStep(k) => PublisherEffect(s.eps[s.pubs[k].ep], s.pubs[k])
    case ThreadStep(i) => ThreadEffect(s.eps[i], i)
    case ControllerStep(_) => Nothing
  }

  /** The effects of a run, in order. */
  ghost function Effects(s: State, labels: seq<Label>, t: State): seq<Effect>
    requires Reaches(s, labels, t)
    decreases |labels|
  {
    if labels == [] then [] else [EffectOf(s, labels[0])] + Effects(Step(s, labels[0]).value, labels[1..], t)
  }

  datatype Kind = Start | Push | Refusal | Eviction | Miss | Take | Removal | Drop

  predicate Counts(kind: Kind, e: Effect) {
    match kind
    case Start => e.Started?
    case Push => e.Pushed?
    case Refusal => e.Refused?
    case Eviction => e.Evicted?
    case Miss => e.Missed?
    case Take => e.Taken?
    case Removal => e.Taken? || e.Evicted?
    case Drop => e.Refused? || (e.Pushed? && e.retried)
  }

  function Part(kind: Kind, e: Effect, ep: nat, p: nat): seq<Msg> {
    if !e.Nothing? && e.ep == ep && e.prio == p && Counts(kind, e) then [e.msg] else []
  }

  /** The messages that had effects of this kind at one queue, in order. */
  function Of(kind: Kind, es: seq<Effect>, ep: nat, p: nat): seq<Msg> {
    if es == [] then [] else Part(kind, es[0], ep, p) + Of(kind, es[1..], ep, p)
  }

  // ---------------------------------------------------------------- queues are first in, first out

  /** A queue before and after an effect. */
  ghost predicate Flows(before: seq<Msg>, e: Effect, ep: nat, p: nat, after: seq<Msg>) {
    before + Part(Push, e, ep, p) == Part(Removal, e, ep, p) + after
  }

  lemma DeliverFlows(e: Endpoint, pub: Publisher, p: nat)
    requires |e.queues| == 3 && !pub.Idle? && (pub.Send? ==> pub.prio < 3) && p < 3 && Deliver(e, pub).Some?
    ensures var f := Deliver(e, pub).value.0;
            |f.queues| == 3 && Flows(e.queues[p], PublisherEffect(e, pub), pub.ep, p, f.queues[p])
  {
    var q := e.queues[p];
    assert q != [] ==> q == [q[0]] + q[1..];
  }

  lemma AdvanceFlows(e: Endpoint, running: bool, shutdown: bool, i: nat, p: nat)
    requires |e.queues| == 3 && (e.thread.Scan? ==> e.thread.prio < 3) && p < 3 && Advance(e, running, shutdown).Some?
    ensures var f := Advance(e, running, shutdown).value;
            |f.queues| == 3 && Flows(e.queues[p], ThreadEffect(e, i), i, p, f.queues[p])
  {
    var q := e.queues[p];
    assert q != [] ==> q == [q[0]] + q[1..];
  }

  lemma StepFlow(s: State, l: Label, i: nat, p: nat)
    requires WellFormed(s) && Step(s, l).Some? && i < |s.eps| && p < 3
    ensures var t := Step(s, l).value;
            && |t.eps| == |s.eps| && |t.eps[i].queues| == 3
            && Flows(s.eps[i].queues[p], EffectOf(s, l), i, p, t.eps[i].queues[p])
  {
    var q := s.eps[i].queues[p];
    match l
    case Publish(_, _, _, _) =>
    case PublisherStep(k) =>
      assert PublisherFits(s, s.pubs[k]);
      if s.pubs[k].ep == i {
        DeliverFlows(s.eps[i], s.pubs[k], p);
      }
    case ThreadStep(j) =>
      if i == j {
        AdvanceFlows(s.eps[i], s.running, s.shutdown, i, p);
      }
    case ControllerStep(created) => ControllerShape(s, created);
  }

  lemma Chain(a: seq<Msg>, x: seq<Msg>, r: seq<Msg>, b: seq<Msg>, y: seq<Msg>, u: seq<Msg>, c: seq<Msg>)
    requires a + x == r + b && b + y == u + c
    ensures a + (x + y) == (r + u) + c
  {
    assert a + (x + y) == (a + x) + y == r + (b + y);
  }

  lemma MiddleFits(m: State, labels: seq<Label>, t: State)
    requires Reaches(m, labels, t) && WellFormed(t)
    ensures WellFormed(m)
  {}

  /** Whatever the interleaving, a queue gives out what was stored, in that order, and holds the rest. */
  lemma {:induction false} QueueFlow(s: State, labels: seq<Label>, t: State, i: nat, p: nat)
    requires WellFormed(t) && Reaches(s, labels, t) && i < |s.eps| && p < 3
    ensures |t.eps| == |s.eps| && WellFormed(s)
    ensures var es := Effects(s, labels, t);
            s.eps[i].queues[p] + Of(Push, es, i, p) == Of(Removal, es, i, p) + t.eps[i].queues[p]
    decreases |labels|
  {
    MiddleFits(s, labels, t);
    if labels == [] {
      assert s.eps[i].queues[p] + [] == [] + t.eps[i].queues[p];
    } else {
      var m, e := Step(s, labels[0]).value, EffectOf(s, labels[0]);
      var rest := Effects(m, labels[1..], t);
      StepFlow(s, labels[0], i, p);
      QueueFlow(m, labels[1..], t, i, p);
      assert ([e] + rest)[1..] == rest;
      Chain(s.eps[i].queues[p], Part(Push, e, i, p), Part(Removal, e, i, p), m.eps[i].queues[p],
            Of(Push, rest, i, p), Of(Removal, rest, i, p), t.eps[i].queues[p]);
    }
  }

  // ---------------------------------------------------------------- what each priority loses

  lemma StepLosses(s: State, l: Label, i: nat, p: nat)
    requires WellFormed(s) && Step(s, l).Some?
    ensures var e := EffectOf(s, l);
            && (p != 1 ==> Part(Removal, e, i, p) == Part(Take, e, i, p) && Part(Eviction, e, i, p) == [])
            && (p == 0 ==> Part(Refusal, e, i, p) == [])
            && (p != 1 ==> Part(Drop, e, i, p) == Part(Refusal, e, i, p))
  {
    if l.PublisherStep? {
      assert PublisherFits(s, s.pubs[l.pub]);
    }
  }

  /** Only NORMAL evicts, HIGH never gives up, and LOW counts exactly what it gives up. */
  lemma {:induction false} RunLosses(s: State, labels: seq<Label>, t: State, i: nat, p: nat)
    requires Reaches(s, labels, t) && WellFormed(t)
    ensures var es := Effects(s, labels, t);
            && (p != 1 ==> Of(Removal, es, i, p) == Of(Take, es, i, p) && Of(Eviction, es, i, p) == [])
            && (p == 0 ==> Of(Refusal, es, i, p) == [])
            && (p != 1 ==> Of(Drop, es, i, p) == Of(Refusal, es, i, p))
    decreases |labels|
  {
    if labels != [] {
      StepLosses(s, labels[0], i, p);
      RunLosses(Step(s, labels[0]).value, labels[1..], t, i, p);
    }
  }

  /** How often message x had an effect of this kind at a queue. */
  function Times(kind: Kind, es: seq<Effect>, ep: nat, p: nat, x: Msg): nat {
    if es == [] then 0 else Once(kind, es[0], ep, p, x) + Times(kind, es[1..], ep, p, x)
  }

  function Once(kind: Kind, e: Effect, ep: nat, p: nat, x: Msg): nat {
    if !e.Nothing? && e.ep == ep && e.prio == p && Counts(kind, e) && e.msg == x then 1 else 0
  }

  lemma {:induction false} TimesIs(kind: Kind, es: seq<Effect>, ep: nat, p: nat, x: Msg)
    ensures Times(kind, es, ep, p, x) == multiset(Of(kind, es, ep, p))[x]
  {
    if es != [] {
      TimesIs(kind, es[1..], ep, p, x);
    }
  }

  lemma {:induction false} RemovalsSplit(es: seq<Effect>, i: nat, p: nat, x: Msg)
    ensures Times(Removal, es, i, p, x) == Times(Take, es, i, p, x) + Times(Eviction, es, i, p, x)
  {
    if es != [] {
      RemovalsSplit(es[1..], i, p, x);
    }
  }

  lemma {:induction false} TakesAreRemovals(es: seq<Effect>, i: nat, p: nat)
    ensures BusQueues.Subsequence(Of(Take, es, i, p), Of(Removal, es, i, p))
  {
    if es != [] {
      TakesAreRemovals(es[1..], i, p);
      var takes, all := Of(Take, es[1..], i, p), Of(Removal, es[1..], i, p);
      if Part(Removal, es[0], i, p) != [] {
        SubsequenceFront(es[0].msg, takes, all);
      }
      assert [] + takes == takes && [] + all == all;
    }
  }

  lemma {:induction false} SubsequenceFront(m: Msg, a: seq<Msg>, b: seq<Msg>)
    requires BusQueues.Subsequence(a, b)
    ensures BusQueues.Subsequence(a, [m] + b)
    ensures BusQueues.Subsequence([m] + a, [m] + b)
    decreases |b|
  {
    var c := b[..|b| - if b == [] then 0 else 1];
    assert b != [] ==> ([m] + b)[..|b|] == [m] + c;
    if b == [] {
      assert ([m] + b)[..0] == [] && ([m] + a)[..0] == [];
    } else if BusQueues.Subsequence(a, c) {
      SubsequenceFront(m, a, c);
    } else {
      SubsequenceFront(m, a[..|a| - 1], c);
      assert ([m] + a)[..|a|] == [m] + a[..|a| - 1];
    }
  }

  lemma {:induction false} SubsequenceTail(a: seq<Msg>, b: seq<Msg>, c: seq<Msg>)
    requires BusQueues.Subsequence(a, b)
    ensures BusQueues.Subsequence(a + c, b + c)
  {
    if c == [] {
      assert a + c == a && b + c == b;
    } else {
      var front := c[..|c| - 1];
      SubsequenceTail(a, b, front);
      BusQueues.SubsequenceGrows(a + front, b + front, c[|c| - 1]);
      assert a + c == a + front + [c[|c| - 1]] && b + c == b + front + [c[|c| - 1]];
    }
  }

  // ---------------------------------------------------------------- what the publishers carry

  /** What a publisher may have in hand: message x for a queue, or a retry at an endpoint. */
  datatype Hand = Carrying(ep: nat, prio: nat, msg: Msg) | Retrying(ep: nat)

  predicate Holds(q: Publisher, h: Hand) {
    match h
    case Carrying(ep, prio, msg) =>
      (match q
       case Send(to, p, m) => to == ep && p == prio && m == msg
       case DropOldest(to, m) => to == ep && 1 == prio && m == msg
       case Resend(to, m) => to == ep && 1 == prio && m == msg
       case _ => false)
    case Retrying(ep) => q.Resend? && q.ep == ep
  }

  function Has(q: Publisher, h: Hand): nat {
    if Holds(q, h) then 1 else 0
  }

  /** How many publishers do. */
  function Holders(pubs: seq<Publisher>, h: Hand): nat {
    if pubs == [] then 0 else Holders(pubs[..|pubs| - 1], h) + Has(pubs[|pubs| - 1], h)
  }

  lemma {:induction false} HolderChanges(pubs: seq<Publisher>, k: nat, q: Publisher, h: Hand)
    requires k < |pubs|
    ensures Holders(pubs[k := q], h) + Has(pubs[k], h) == Holders(pubs, h) + Has(q, h)
  {
    var last := |pubs| - 1;
    if k < last {
      HolderChanges(pubs[..last], k, q, h);
      assert pubs[k := q][..last] == pubs[..last][k := q];
    } else {
      assert pubs[k := q][..last] == pubs[..last];
    }
  }

  lemma {:induction false} NobodyHolds(n: nat, h: Hand)
    ensures Holders(seq(n, _ => Idle), h) == 0
  {
    if n > 0 {
      NobodyHolds(n - 1, h);
      assert seq(n, _ => Idle)[..n - 1] == seq(n - 1, _ => Idle);
    }
  }

  /** A publisher's step neither invents nor forgets its message. */
  lemma DeliverCarries(e: Endpoint, pub: Publisher, ep: nat, p: nat, x: Msg)
    requires |e.queues| == 3 && !pub.Idle? && (pub.Send? ==> pub.prio < 3) && Deliver(e, pub).Some?
    ensures var q, effect := Deliver(e, pub).value.1, PublisherEffect(e, pub);
            Has(pub, Carrying(ep, p, x)) ==
              Once(Push, effect, ep, p, x) + Once(Refusal, effect, ep, p, x) + Has(q, Carrying(ep, p, x))
  {}

  lemma StepHolders(s: State, l: Label, ep: nat, p: nat, x: Msg)
    requires WellFormed(s) && Step(s, l).Some?
    ensures var t, e, h := Step(s, l).value, EffectOf(s, l), Carrying(ep, p, x);
            Once(Start, e, ep, p, x) + Holders(s.pubs, h) ==
              Once(Push, e, ep, p, x) + Once(Refusal, e, ep, p, x) + Holders(t.pubs, h)
  {
    var t, h := Step(s, l).value, Carrying(ep, p, x);
    match l
    case Publish(k, to, prio, msg) =>
      HolderChanges(s.pubs, k, Send(to, prio, msg), h);
    case PublisherStep(k) =>
      assert PublisherFits(s, s.pubs[k]);
      DeliverCarries(s.eps[s.pubs[k].ep], s.pubs[k], ep, p, x);
      HolderChanges(s.pubs, k, t.pubs[k], h);
    case _ =>
  }

  lemma {:induction false} RunHolders(s: State, labels: seq<Label>, t: State, ep: nat, p: nat, x: Msg)
    requires Reaches(s, labels, t) && WellFormed(t)
    ensures var es, h := Effects(s, labels, t), Carrying(ep, p, x);
            Times(Start, es, ep, p, x) + Holders(s.pubs, h) ==
              Times(Push, es, ep, p, x) + Times(Refusal, es, ep, p, x) + Holders(t.pubs, h)
    decreases |labels|
  {
    if labels != [] {
      StepHolders(s, labels[0], ep, p, x);
      RunHolders(Step(s, labels[0]).value, labels[1..], t, ep, p, x);
    }
  }

  lemma DeliverRetries(e: Endpoint, pub: Publisher, ep: nat)
    requires |e.queues| == 3 && !pub.Idle? && (pub.Send? ==> pub.prio < 3) && Deliver(e, pub).Some?
    ensures var q, effect := Deliver(e, pub).value.1, PublisherEffect(e, pub);
            Has(pub, Retrying(ep)) + |Part(Eviction, effect, ep, 1)| + |Part(Miss, effect, ep, 1)| ==
              |Part(Drop, effect, ep, 1)| + Has(q, Retrying(ep))
  {}

  lemma StepDrops(s: State, l: Label, ep: nat)
    requires WellFormed(s) && Step(s, l).Some?
    ensures var t, e, h := Step(s, l).value, EffectOf(s, l), Retrying(ep);
            Holders(s.pubs, h) + |Part(Eviction, e, ep, 1)| + |Part(Miss, e, ep, 1)| ==
              |Part(Drop, e, ep, 1)| + Holders(t.pubs, h)
  {
    var t, h := Step(s, l).value, Retrying(ep);
    match l
    case Publish(k, to, prio, msg) =>
      HolderChanges(s.pubs, k, Send(to, prio, msg), h);
    case PublisherStep(k) =>
      assert PublisherFits(s, s.pubs[k]);
      DeliverRetries(s.eps[s.pubs[k].ep], s.pubs[k], ep);
      HolderChanges(s.pubs, k, t.pubs[k], h);
    case _ =>
  }

  lemma {:induction false} RunDrops(s: State, labels: seq<Label>, t: State, ep: nat)
    requires Reaches(s, labels, t) && WellFormed(t)
    ensures var es, h := Effects(s, labels, t), Retrying(ep);
            Holders(s.pubs, h) + |Of(Eviction, es, ep, 1)| + |Of(Miss, es, ep, 1)| ==
              |Of(Drop, es, ep, 1)| + Holders(t.pubs, h)
    decreases |labels|
  {
    if labels != [] {
      StepDrops(s, labels[0], ep);
      RunDrops(Step(s, labels[0]).value, labels[1..], t, ep);
    }
  }

  // ---------------------------------------------------------------- main results

  /** A queue of a reachable state, on the messages stored in it since the start. */
  lemma StoredFlow(endpoints: nat, publishers: nat, labels: seq<Label>, t: State, i: nat, p: nat)
    requires Reaches(Initial(endpoints, publishers), labels, t) && i < endpoints && p < 3
    ensures Inv(t) && |t.eps| == endpoints
    ensures var es := Effects(Initial(endpoints, publishers), labels, t);
            Of(Push, es, i, p) == Of(Removal, es, i, p) + t.eps[i].queues[p]
  {
    var s := Initial(endpoints, publishers);
    InitialInv(endpoints, publishers);
    RunKeepsInv(s, labels, t);
    QueueFlow(s, labels, t, i, p);
    assert s.eps[i].queues[p] + Of(Push, Effects(s, labels, t), i, p) == Of(Push, Effects(s, labels, t), i, p);
  }

  /** In every reachable state, for every queue and every message x: each delivery of x that began ended with x
      taken by the thread, evicted or given up, or x is still queued or in a publisher's hands. */
  lemma EveryMessageOnce(endpoints: nat, publishers: nat, labels: seq<Label>, t: State, i: nat, p: nat, x: Msg)
    requires Reaches(Initial(endpoints, publishers), labels, t) && i < endpoints && p < 3
    ensures WellFormed(t) && |t.eps| == endpoints
    ensures var es := Effects(Initial(endpoints, publishers), labels, t);
            Times(Start, es, i, p, x) ==
              Times(Take, es, i, p, x) + Times(Eviction, es, i, p, x) + Times(Refusal, es, i, p, x)
              + multiset(t.eps[i].queues[p])[x] + Holders(t.pubs, Carrying(i, p, x))
  {
    var es := Effects(Initial(endpoints, publishers), labels, t);
    StoredFlow(endpoints, publishers, labels, t, i, p);
    RunHolders(Initial(endpoints, publishers), labels, t, i, p, x);
    NobodyHolds(endpoints + publishers, Carrying(i, p, x));
    RemovalsSplit(es, i, p, x);
    TimesIs(Push, es, i, p, x);
    TimesIs(Removal, es, i, p, x);
  }

  /** What the thread took from a queue and what is queued are in the order in which they were stored; in a HIGH
      or a LOW queue they are all that was stored, and HIGH gives nothing up, so its senders wait. */
  lemma DeliveredInOrder(endpoints: nat, publishers: nat, labels: seq<Label>, t: State, i: nat, p: nat)
    requires Reaches(Initial(endpoints, publishers), labels, t) && i < endpoints && p < 3
    ensures WellFormed(t) && |t.eps| == endpoints
    ensures var es := Effects(Initial(endpoints, publishers), labels, t);
            var delivered := Of(Take, es, i, p) + t.eps[i].queues[p];
            && BusQueues.Subsequence(delivered, Of(Push, es, i, p))
            && (p != 1 ==> delivered == Of(Push, es, i, p) && Of(Drop, es, i, p) == Of(Refusal, es, i, p))
            && (p == 0 ==> Of(Refusal, es, i, p) == [])
  {
    var es := Effects(Initial(endpoints, publishers), labels, t);
    StoredFlow(endpoints, publishers, labels, t, i, p);
    RunLosses(Initial(endpoints, publishers), labels, t, i, p);
    TakesAreRemovals(es, i, p);
    SubsequenceTail(Of(Take, es, i, p), Of(Removal, es, i, p), t.eps[i].queues[p]);
  }

  // ---------------------------------------------------------------- when the NORMAL policy holds

  lemma FlowLengths(s: State, labels: seq<Label>, t: State, i: nat, p: nat)
    requires WellFormed(t) && Reaches(s, labels, t) && i < |s.eps| && p < 3
    ensures |t.eps| == |s.eps| && WellFormed(s)
    ensures var es := Effects(s, labels, t);
            |s.eps[i].queues[p]| + |Of(Push, es, i, p)| == |Of(Removal, es, i, p)| + |t.eps[i].queues[p]|
  {
    QueueFlow(s, labels, t, i, p);
    var es := Effects(s, labels, t);
    assert |s.eps[i].queues[p] + Of(Push, es, i, p)| == |Of(Removal, es, i, p) + t.eps[i].queues[p]|;
  }

  /** A publisher comes to evict from an empty queue exactly when all there was, and all that was stored since
      any earlier state, has left. */
  lemma MissedIff(s: State, labels: seq<Label>, t: State, k: nat, i: nat, msg: Msg)
    requires WellFormed(t) && Reaches(s, labels, t) && i < |s.eps| && k < |t.pubs| && t.pubs[k] == DropOldest(i, msg)
    ensures |t.eps| == |s.eps| && WellFormed(s)
    ensures var es := Effects(s, labels, t);
            EffectOf(t, PublisherStep(k)) == Missed(i, 1, msg) <==>
            |s.eps[i].queues[1]| + |Of(Push, es, i, 1)| == |Of(Removal, es, i, 1)|
  {
    FlowLengths(s, labels, t, i, 1);
  }

  /** A retry is refused exactly when what was stored since any earlier state outweighs what has left, up to the depth. */
  lemma RetryRefusedIff(s: State, labels: seq<Label>, t: State, k: nat, i: nat, msg: Msg)
    requires WellFormed(t) && Reaches(s, labels, t) && i < |s.eps| && k < |t.pubs| && t.pubs[k] == Resend(i, msg)
    ensures |t.eps| == |s.eps| && WellFormed(s)
    ensures var es := Effects(s, labels, t);
            EffectOf(t, PublisherStep(k)) == Refused(i, 1, msg) <==>
            |s.eps[i].queues[1]| + |Of(Push, es, i, 1)| >= 32 + |Of(Removal, es, i, 1)|
  {
    FlowLengths(s, labels, t, i, 1);
  }

  /** Publisher k found the NORMAL queue full in s, comes to evict in m, and to store again in t.  It drops the oldest
      message for the new one, as the policy says, exactly when the others did not empty the queue before it
      evicts, and did not store more than was taken by the time it stores. */
  lemma PolicyKeptIff(s: State, first: seq<Label>, m: State, second: seq<Label>, t: State, k: nat, i: nat, msg: Msg)
    requires WellFormed(t) && i < |s.eps| && |s.eps[i].queues| == 3 && |s.eps[i].queues[1]| == 32
    requires Reaches(s, first, m) && k < |m.pubs| && m.pubs[k] == DropOldest(i, msg)
    requires WellFormed(m) && Step(m, PublisherStep(k)).Some? && Reaches(Step(m, PublisherStep(k)).value, second, t)
    requires k < |t.pubs| && t.pubs[k] == Resend(i, msg)
    ensures var n := Step(m, PublisherStep(k)).value;
            var es, fs := Effects(s, first, m), Effects(n, second, t);
            EffectOf(m, PublisherStep(k)).Evicted? && EffectOf(t, PublisherStep(k)) == Pushed(i, 1, msg, true) <==>
            && |Of(Removal, es, i, 1)| < 32 + |Of(Push, es, i, 1)|
            && |Of(Push, es, i, 1)| + |Of(Push, fs, i, 1)| <= |Of(Removal, es, i, 1)| + |Of(Removal, fs, i, 1)|
  {
    var n := Step(m, PublisherStep(k)).value;
    StepFits(m, PublisherStep(k));
    FlowLengths(s, first, m, i, 1);
    FlowLengths(n, second, t, i, 1);
  }

  /** The publisher carries a message for the NORMAL queue of endpoint i. */
  predicate CarriesNormal(q: Publisher, i: nat) {
    !q.Idle? && !q.Notify? && q.ep == i && (q.Send? ==> q.prio == 1)
  }

  /** In this run a delivery to the NORMAL queue of endpoint i begins only while no other is under way. */
  ghost predicate OneAtATime(s: State, labels: seq<Label>, i: nat)
    decreases |labels|
  {
    labels != [] && WellFormed(s) && Step(s, labels[0]).Some? ==>
      && (labels[0].Publish? && labels[0].ep == i && labels[0].prio == 1 ==>
            forall k :: 0 <= k < |s.pubs| ==> !CarriesNormal(s.pubs[k], i))
      && OneAtATime(Step(s, labels[0]).value, labels[1..], i)
  }

  /** At most one delivery is under way, and a retry finds room. */
  ghost predicate Serial(s: State, i: nat)
    requires WellFormed(s) && i < |s.eps|
  {
    && |s.eps[i].queues[1]| <= 32
    && (forall j, k :: 0 <= j < k < |s.pubs| ==> !CarriesNormal(s.pubs[j], i) || !CarriesNormal(s.pubs[k], i))
    && (forall k :: 0 <= k < |s.pubs| && s.pubs[k].Resend? && s.pubs[k].ep == i ==> |s.eps[i].queues[1]| < 32)
  }

  lemma SerialPublisher(s: State, k: nat, i: nat)
    requires WellFormed(s) && i < |s.eps| && Serial(s, i) && Step(s, PublisherStep(k)).Some?
    requires WellFormed(Step(s, PublisherStep(k)).value)
    ensures Serial(Step(s, PublisherStep(k)).value, i)
    ensures Part(Refusal, EffectOf(s, PublisherStep(k)), i, 1) == []
  {
    assert PublisherFits(s, s.pubs[k]);
    var t := Step(s, PublisherStep(k)).value;
    assert CarriesNormal(t.pubs[k], i) ==> CarriesNormal(s.pubs[k], i);
    forall j | 0 <= j < |t.pubs| && t.pubs[j].Resend? && t.pubs[j].ep == i
      ensures |t.eps[i].queues[1]| < 32
    {
      if j != k {
        assert CarriesNormal(s.pubs[j], i);
        assert !CarriesNormal(s.pubs[k], i);
      }
    }
  }

  lemma SerialStep(s: State, l: Label, i: nat)
    requires WellFormed(s) && i < |s.eps| && Serial(s, i) && Step(s, l).Some?
    requires l.Publish? && l.ep == i && l.prio == 1 ==> forall k :: 0 <= k < |s.pubs| ==> !CarriesNormal(s.pubs[k], i)
    ensures var t := Step(s, l).value; WellFormed(t) && |t.eps| == |s.eps| && Serial(t, i)
    ensures Part(Refusal, EffectOf(s, l), i, 1) == []
  {
    StepFits(s, l);
    match l
    case Publish(k, _, _, _) => SerialBegin(s, l, i);
    case PublisherStep(k) => SerialPublisher(s, k, i);
    case _ => OnlyTakes(s, l, i);
  }

  lemma SerialBegin(s: State, l: Label, i: nat)
    requires WellFormed(s) && i < |s.eps| && Serial(s, i) && l.Publish? && Step(s, l).Some?
    requires l.ep == i && l.prio == 1 ==> forall k :: 0 <= k < |s.pubs| ==> !CarriesNormal(s.pubs[k], i)
    requires WellFormed(Step(s, l).value)
    ensures Serial(Step(s, l).value, i)
  {
    var t := Step(s, l).value;
    assert CarriesNormal(t.pubs[l.pub], i) ==> l.ep == i && l.prio == 1;
  }

  lemma OnlyTakes(s: State, l: Label, i: nat)
    requires WellFormed(s) && i < |s.eps| && (l.ThreadStep? || l.ControllerStep?) && Step(s, l).Some?
    ensures var t := Step(s, l).value;
            && |t.eps| == |s.eps| && t.pubs == s.pubs && |t.eps[i].queues| == 3
            && |t.eps[i].queues[1]| <= |s.eps[i].queues[1]|
            && Part(Refusal, EffectOf(s, l), i, 1) == []
  {}

  lemma {:induction false} SerialRun(s: State, labels: seq<Label>, t: State, i: nat)
    requires WellFormed(s) && i < |s.eps| && Serial(s, i) && Reaches(s, labels, t) && OneAtATime(s, labels, i)
    ensures Of(Refusal, Effects(s, labels, t), i, 1) == []
    decreases |labels|
  {
    if labels != [] {
      SerialStep(s, labels[0], i);
      SerialRun(Step(s, labels[0]).value, labels[1..], t, i);
    }
  }

  /** With the deliveries to one NORMAL queue made one at a time, every new message is stored, and the drops counted
      are the messages lost, one for each eviction, plus the visits to a queue emptied in between. */
  lemma SerialisedDrops(endpoints: nat, publishers: nat, labels: seq<Label>, t: State, i: nat)
    requires Reaches(Initial(endpoints, publishers), labels, t) && i < endpoints
    requires OneAtATime(Initial(endpoints, publishers), labels, i)
    ensures var es := Effects(Initial(endpoints, publishers), labels, t);
            && Of(Refusal, es, i, 1) == []
            && |Of(Drop, es, i, 1)| + Holders(t.pubs, Retrying(i)) == |Of(Eviction, es, i, 1)| + |Of(Miss, es, i, 1)|
  {
    var s := Initial(endpoints, publishers);
    InitialInv(endpoints, publishers);
    RunKeepsInv(s, labels, t);
    SerialRun(s, labels, t, i);
    RunDrops(s, labels, t, i);
    NobodyHolds(endpoints + publishers, Retrying(i));
  }

  /** The balance of a NORMAL queue: its drop counter, with no publisher between making room and storing, counts the
      losses exactly when as many publishers found nothing to evict as lost the room they had made. */
  lemma DropsCountLossesIff(endpoints: nat, publishers: nat, labels: seq<Label>, t: State, i: nat)
    requires Reaches(Initial(endpoints, publishers), labels, t) && i < endpoints
    ensures var es := Effects(Initial(endpoints, publishers), labels, t);
            var lost, retries := |Of(Eviction, es, i, 1)| + |Of(Refusal, es, i, 1)|, Holders(t.pubs, Retrying(i));
            && lost + |Of(Miss, es, i, 1)| == |Of(Drop, es, i, 1)| + |Of(Refusal, es, i, 1)| + retries
            && (retries == 0 ==>
                  (|Of(Drop, es, i, 1)| == lost <==> |Of(Refusal, es, i, 1)| == |Of(Miss, es, i, 1)|))
  {
    InitialInv(endpoints, publishers);
    RunKeepsInv(Initial(endpoints, publishers), labels, t);
    RunDrops(Initial(endpoints, publishers), labels, t, i);
    NobodyHolds(endpoints + publishers, Retrying(i));
  }

  /** One endpoint, not dispatching, whose NORMAL queue holds x n times, and two publishers beside its thread. */
  datatype Spot = Spot(n: nat, sem: nat, first: Publisher, second: Publisher)

  function Store(n: nat, sem: nat, x: Msg): Endpoint {
    Endpoint([[], seq(n, _ => x), []], sem, NoThread, 0, [])
  }

  function StateOf(a: Spot, x: Msg): State {
    State([Store(a.n, a.sem, x)], [Idle, a.first, a.second], Down, false, false)
  }

  predicate Plays(a: Spot, x: Msg, q: Publisher) {
    match q
    case Idle => true
    case Send(ep, prio, m) => ep == 0 && prio == 1 && m == x
    case DropOldest(ep, m) => ep == 0 && m == x && a.n > 0
    case Resend(ep, m) => ep == 0 && m == x && a.n == 32
    case Notify(ep) => ep == 0
  }

  function Turn(q: Publisher, k: nat, x: Msg): Label {
    if q.Idle? then Publish(k + 1, 0, 1, x) else PublisherStep(k + 1)
  }

  /** What a publisher's turn makes of the queue length, the semaphore and the publisher. */
  function Played(a: Spot, x: Msg, q: Publisher): (nat, nat, Publisher)
    requires Plays(a, x, q)
  {
    match q
    case Idle => (a.n, a.sem, Send(0, 1, x))
    case Send(_, _, _) => if a.n < 32 then (a.n + 1, a.sem, Notify(0)) else (a.n, a.sem, DropOldest(0, x))
    case DropOldest(_, _) => (a.n - 1, a.sem, Resend(0, x))
    case Resend(_, _) => (a.n, a.sem, Notify(0))
    case Notify(_) => (a.n, Post(a.sem), Idle)
  }

  function After(a: Spot, k: nat, x: Msg): Spot
    requires Plays(a, x, if k == 0 then a.first else a.second)
  {
    var (n, sem, q) := Played(a, x, if k == 0 then a.first else a.second);
    if k == 0 then Spot(n, sem, q, a.second) else Spot(n, sem, a.first, q)
  }

  lemma StoreDelivers(a: Spot, x: Msg, q: Publisher)
    requires Plays(a, x, q) && !q.Idle? && a.n <= 32
    ensures var (n, sem, next) := Played(a, x, q);
            Deliver(Store(a.n, a.sem, x), q) == Some((Store(n, sem, x), next))
  {
    var s := seq(a.n, _ => x);
    assert s + [x] == seq(a.n + 1, _ => x);
    assert a.n > 0 ==> s[1..] == seq(a.n - 1, _ => x);
    assert [[], s, []][1 := s + [x]] == [[], s + [x], []];
    assert a.n > 0 ==> [[], s, []][1 := s[1..]] == [[], s[1..], []];
  }

  lemma SpotMoves(a: Spot, k: nat, x: Msg)
    requires k < 2 && a.n <= 32 && WellFormed(StateOf(a, x)) && Plays(a, x, if k == 0 then a.first else a.second)
    ensures Step(StateOf(a, x), Turn(if k == 0 then a.first else a.second, k, x)) == Some(StateOf(After(a, k, x), x))
  {
    var q := if k == 0 then a.first else a.second;
    var (n, sem, next) := Played(a, x, q);
    if !q.Idle? {
      StoreDelivers(a, x, q);
    }
    assert [Store(a.n, a.sem, x)][0 := Store(n, sem, x)] == [Store(n, sem, x)];
    assert [Idle, a.first, a.second][k + 1 := next] == if k == 0 then [Idle, next, a.second] else [Idle, a.first, next];
  }

  /** The drops, evictions and refusals of a run, at the NORMAL queue of endpoint 0. */
  ghost predicate Counted(s: State, labels: seq<Label>, t: State, drops: nat, evictions: nat, refusals: nat) {
    && Reaches(s, labels, t)
    && var es := Effects(s, labels, t);
       |Of(Drop, es, 0, 1)| == drops && |Of(Eviction, es, 0, 1)| == evictions && |Of(Refusal, es, 0, 1)| == refusals
  }

  lemma Prepend(s: State, l: Label, m: State, labels: seq<Label>, t: State, drops: nat, evictions: nat, refusals: nat)
    requires WellFormed(s) && Step(s, l) == Some(m) && Counted(m, labels, t, drops, evictions, refusals)
    ensures var e := EffectOf(s, l);
            Counted(s, [l] + labels, t, drops + |Part(Drop, e, 0, 1)|,
                    evictions + |Part(Eviction, e, 0, 1)|, refusals + |Part(Refusal, e, 0, 1)|)
  {
    assert ([l] + labels)[1..] == labels;
    assert ([EffectOf(s, l)] + Effects(m, labels, t))[1..] == Effects(m, labels, t);
  }

  lemma SpotFits(a: Spot, x: Msg)
    requires Plays(a.(n := 32), x, a.first) && Plays(a.(n := 32), x, a.second)
    ensures WellFormed(StateOf(a, x))
  {
    var s := StateOf(a, x);
    forall k | 0 <= k < |s.pubs|
      ensures PublisherFits(s, s.pubs[k])
    {}
  }

  /** A turn of publisher k in front of a run. */
  lemma Front(a: Spot, k: nat, x: Msg, labels: seq<Label>, t: State, drops: nat, evictions: nat, refusals: nat)
      returns (more: seq<Label>)
    requires k < 2 && a.n <= 32 && Plays(a.(n := 32), x, a.first) && Plays(a.(n := 32), x, a.second)
    requires Plays(a, x, if k == 0 then a.first else a.second)
    requires Counted(StateOf(After(a, k, x), x), labels, t, drops, evictions, refusals)
    ensures var q := if k == 0 then a.first else a.second;
            var given := if q.Resend? then 1 else 0;
            Counted(StateOf(a, x), more, t, drops + given, evictions + (if q.DropOldest? then 1 else 0), refusals + given)
  {
    var q := if k == 0 then a.first else a.second;
    SpotFits(a, x);
    SpotMoves(a, k, x);
    Prepend(StateOf(a, x), Turn(q, k, x), StateOf(After(a, k, x), x), labels, t, drops, evictions, refusals);
    more := [Turn(q, k, x)] + labels;
  }

  /** Two publishers overflow a full queue at once: the first evicts a message, the second takes the room, and the
      message of the first is given up as well. */
  lemma Collide(x: Msg) returns (labels: seq<Label>, t: State)
    ensures t.pubs == [Idle, Idle, Idle] && Counted(StateOf(Spot(32, 32, Idle, Idle), x), labels, t, 1, 1, 1)
  {
    var send, again, full := Send(0, 1, x), Resend(0, x), DropOldest(0, x);
    t := StateOf(Spot(32, 34, Idle, Idle), x);
    labels := Front(Spot(32, 33, Idle, Notify(0)), 1, x, [], t, 0, 0, 0);
    labels := Front(Spot(32, 32, Notify(0), Notify(0)), 0, x, labels, t, 0, 0, 0);
    labels := Front(Spot(32, 32, again, Notify(0)), 0, x, labels, t, 0, 0, 0);
    labels := Front(Spot(31, 32, again, send), 1, x, labels, t, 1, 0, 1);
    labels := Front(Spot(31, 32, again, Idle), 1, x, labels, t, 1, 0, 1);
    labels := Front(Spot(32, 32, full, Idle), 0, x, labels, t, 1, 0, 1);
    labels := Front(Spot(32, 32, send, Idle), 0, x, labels, t, 1, 1, 1);
    labels := Front(Spot(32, 32, Idle, Idle), 0, x, labels, t, 1, 1, 1);
  }

  lemma {:induction false} FillAndCollide(n: nat, x: Msg) returns (labels: seq<Label>, t: State)
    requires n <= 32
    ensures t.pubs == [Idle, Idle, Idle] && Counted(StateOf(Spot(n, n, Idle, Idle), x), labels, t, 1, 1, 1)
    decreases 32 - n
  {
    if n == 32 {
      labels, t := Collide(x);
    } else {
      labels, t := FillAndCollide(n + 1, x);
      labels := Front(Spot(n + 1, n, Notify(0), Idle), 0, x, labels, t, 1, 1, 1);
      labels := Front(Spot(n, n, Send(0, 1, x), Idle), 0, x, labels, t, 1, 1, 1);
      labels := Front(Spot(n, n, Idle, Idle), 0, x, labels, t, 1, 1, 1);
    }
  }

  /** Hence the counter can be wrong: a run with one endpoint and two publishers, both done, that counts one drop
      and has lost two messages. */
  lemma DropsCanMiscount(x: Msg) returns (labels: seq<Label>, t: State)
    ensures t.pubs == [Idle, Idle, Idle] && Counted(Initial(1, 2), labels, t, 1, 1, 1)
  {
    labels, t := FillAndCollide(0, x);
    assert seq(1, _ => Endpoint([[], [], []], 0, NoThread, 0, [])) == [Endpoint([[], [], []], 0, NoThread, 0, [])];
    assert seq(3, _ => Idle) == [Idle, Idle, Idle];
    assert seq(0, _ => x) == [];
    assert Initial(1, 2) == StateOf(Spot(0, 0, Idle, Idle), x);
  }

  /** What the dispatch thread took from any of its queues. */
  function AllTakes(es: seq<Effect>, ep: nat): seq<Msg> {
    if es == [] then []
    else (if es[0].Taken? && es[0].ep == ep then [es[0].msg] else []) + AllTakes(es[1..], ep)
  }

  /** What the sub-functions have received, and the message they are about to. */
  function Received(e: Endpoint): seq<Msg> {
    e.handled + if e.thread.Handling? then [e.thread.msg] else []
  }

  lemma StepTakes(s: State, l: Label, i: nat)
    requires Inv(s) && Step(s, l).Some? && i < |s.eps|
    ensures var t, e := Step(s, l).value, EffectOf(s, l);
            && |t.eps| == |s.eps|
            && Received(s.eps[i]) + (if e.Taken? && e.ep == i then [e.msg] else []) == Received(t.eps[i])
  {
    if l.PublisherStep? {
      assert PublisherFits(s, s.pubs[l.pub]);
    }
  }

  lemma Three(before: seq<Msg>, middle: seq<Msg>, rest: seq<Msg>, e: Effect, i: nat)
    requires before + (if e.Taken? && e.ep == i then [e.msg] else []) == middle
    ensures before + ((if e.Taken? && e.ep == i then [e.msg] else []) + rest) == middle + rest
  {}

  lemma {:induction false} RunTakes(s: State, labels: seq<Label>, t: State, i: nat)
    requires Inv(s) && Reaches(s, labels, t) && i < |s.eps|
    ensures |t.eps| == |s.eps|
    ensures Received(s.eps[i]) + AllTakes(Effects(s, labels, t), i) == Received(t.eps[i])
    decreases |labels|
  {
    if labels != [] {
      Dispatch.StepKeepsInv(s, labels[0]);
      StepTakes(s, labels[0], i);
      var m := Step(s, labels[0]).value;
      RunTakes(m, labels[1..], t, i);
      Three(Received(s.eps[i]), Received(m.eps[i]), AllTakes(Effects(m, labels[1..], t), i), EffectOf(s, labels[0]), i);
    }
  }

  /** The sub-functions receive what the thread takes, each message once and in the order taken. */
  lemma TakenIsHandled(endpoints: nat, publishers: nat, labels: seq<Label>, t: State, i: nat)
    requires Reaches(Initial(endpoints, publishers), labels, t) && i < endpoints
    ensures |t.eps| == endpoints
    ensures AllTakes(Effects(Initial(endpoints, publishers), labels, t), i) == Received(t.eps[i])
  {
    InitialInv(endpoints, publishers);
    RunTakes(Initial(endpoints, publishers), labels, t, i);
  }

  // ---------------------------------------------------------------- the policy, undisturbed

  /** A delivery whose steps follow one another without a step of anyone else in between. */
  function Finish(e: Endpoint, pub: Publisher, n: nat): Option<Endpoint>
    requires |e.queues| == 3 && (pub.Send? ==> pub.prio < 3)
    decreases n
  {
    if pub.Idle? then Some(e)
    else if n == 0 then None
    else
      match Deliver(e, pub)
      case None => None
      case Some((f, next)) => Finish(f, next, n - 1)
  }

  /** Then it is the delivery of the bus queues. */
  lemma Undisturbed(e: Endpoint, ep: nat, prio: nat, msg: Msg)
    requires |e.queues| == 3 && prio < 3 && |e.queues[prio]| <= BusQueues.Depth(prio)
    ensures var done := Finish(e, Send(ep, prio, msg), 4);
            match BusQueues.Deliver(prio, e.queues[prio], msg)
            case Blocked => done == None
            case Queued(items) => done == Some(e.(queues := e.queues[prio := items], sem := Post(e.sem)))
            case Evicted(items, _) => done == Some(e.(queues := e.queues[prio := items], sem := Post(e.sem)))
            case Refused(items) => done == Some(e) && items == e.queues[prio]
  {
    if Full(e, prio) && prio == 1 {
      var popped := Pop(e, 1);
      var pushed := Dispatch.Push(popped, 1, msg);
      assert pushed.queues == e.queues[1 := e.queues[1][1..] + [msg]];
      assert Finish(pushed, Notify(ep), 1) == Some(pushed.(sem := Post(e.sem)));
      assert Finish(popped, Resend(ep, msg), 2) == Finish(pushed, Notify(ep), 1);
      assert Finish(e, DropOldest(ep, msg), 3) == Finish(popped, Resend(ep, msg), 2);
    } else if !Full(e, prio) {
      var pushed := Dispatch.Push(e, prio, msg);
      assert Finish(pushed, Notify(ep), 3) == Some(pushed.(sem := Post(e.sem)));
    }
  }
}
