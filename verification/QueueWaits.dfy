/** The blocking and the timed forms of the queue calls (osal/posix/embediq_osal_posix.c): any number of threads on
    one queue with a mutex and two condition variables, as a state machine.

    What a thread does while it holds the mutex is one step.  A signal wakes one waiter of the scheduler's choice,
    if there is one; a waiter may also wake without a signal.  A timed waiter may give up, also after a signal has
    reached it: POSIX lets a timed-out wait consume a signal directed at it, and the code then returns without
    looking at the queue or passing the signal on. */
module QueueWaits {
  import opened Wrappers
  import OsalQueue

  type Item = seq<OsalQueue.byte>

  /** The timeout argument: 0, a number of milliseconds, or UINT32_MAX. */
  datatype Timeout = Zero | Finite | Forever

  datatype Role = Sender(item: Item) | Receiver

  datatype Thread =
    | Idle
    | Ready(role: Role, timeout: Timeout)  // about to take the mutex for the first time
    | Blocked(role: Role, timed: bool)     // in the condition wait
    | Woken(role: Role, timed: bool)       // out of it, about to retake the mutex

  /** accepted and delivered record all items sent and received, in order; the last two, how many senders and
      receivers have timed out after they were woken. */
  datatype State = State(
    depth: nat, items: seq<Item>, threads: seq<Thread>, accepted: seq<Item>, delivered: seq<Item>,
    lateSenders: nat, lateReceivers: nat)

  datatype Label =
    | Call(k: nat, role: Role, timeout: Timeout)
    | Run(k: nat, woken: nat)  // with the mutex; woken is the waiter that its signal reaches
    | Spurious(k: nat)
    | Expire(k: nat)

  function Initial(depth: nat, threads: nat): State {
    State(depth, [], seq(threads, _ => Idle), [], [], 0, 0)
  }

  predicate Waits(t: Thread, sender: bool) {
    t.Blocked? && t.role.Sender? == sender
  }

  predicate AnyWaits(threads: seq<Thread>, sender: bool) {
    exists k :: 0 <= k < |threads| && Waits(threads[k], sender)
  }

  /** pthread_cond_signal; None if the scheduler's choice is not a waiter although there is one. */
  function Signal(threads: seq<Thread>, sender: bool, choice: nat): Option<seq<Thread>> {
    if choice < |threads| && Waits(threads[choice], sender) then
      Some(threads[choice := Woken(threads[choice].role, threads[choice].timed)])
    else if AnyWaits(threads, sender) then None
    else Some(threads)
  }

  /** One pass through the loop of queue_send or queue_recv. */
  function Pass(s: State, k: nat, choice: nat): Option<State>
    requires k < |s.threads| && (s.threads[k].Ready? || s.threads[k].Woken?)
  {
    var t := s.threads[k];
    if if t.role.Sender? then |s.items| >= s.depth else s.items == [] then
      var next := if t.Woken? then Blocked(t.role, t.timed)
                  else if t.timeout.Zero? then Idle
                  else Blocked(t.role, t.timeout.Finite?);
      Some(s.(threads := s.threads[k := next]))
    else
      match Signal(s.threads[k := Idle], !t.role.Sender?, choice)
      case None => None
      case Some(threads) =>
        if t.role.Sender? then
          Some(s.(threads := threads, items := OsalQueue.Send(s.depth, s.items, t.role.item),
                  accepted := s.accepted + [t.role.item]))
        else
          Some(s.(threads := threads, items := OsalQueue.Receive(s.items), delivered := s.delivered + [s.items[0]]))
  }

  function Step(s: State, l: Label): Option<State> {
    if l.k >= |s.threads| then None
    else
      var t := s.threads[l.k];
      match l
      case Call(k, role, timeout) => if t.Idle? then Some(s.(threads := s.threads[k := Ready(role, timeout)])) else None
      case Run(k, choice) => if t.Ready? || t.Woken? then Pass(s, k, choice) else None
      case Spurious(k) => if t.Blocked? then Some(s.(threads := s.threads[k := Woken(t.role, t.timed)])) else None
      case Expire(k) =>
        if t.Blocked? && t.timed then Some(s.(threads := s.threads[k := Idle]))
        else if t.Woken? && t.timed then
          var u := s.(threads := s.threads[k := Idle]);
          Some(if t.role.Sender? then u.(lateSenders := s.lateSenders + 1) else u.(lateReceivers := s.lateReceivers + 1))
        else None
  }

  // ---------------------------------------------------------------- the invariant

  function One(t: Thread, sender: bool): nat {
    if t.Woken? && t.role.Sender? == sender then 1 else 0
  }

  /** The threads that will look at the queue again. */
  function Looking(threads: seq<Thread>, sender: bool): nat {
    if threads == [] then 0 else Looking(threads[..|threads| - 1], sender) + One(threads[|threads| - 1], sender)
  }

  lemma {:induction false} LookingChanges(threads: seq<Thread>, k: nat, t: Thread, sender: bool)
    requires k < |threads|
    ensures Looking(threads[k := t], sender) + One(threads[k], sender) == Looking(threads, sender) + One(t, sender)
  {
    var last := |threads| - 1;
    if k < last {
      LookingChanges(threads[..last], k, t, sender);
      assert threads[k := t][..last] == threads[..last][k := t];
    } else {
      assert threads[k := t][..last] == threads[..last];
    }
  }

  lemma {:induction false} SomeoneLooks(threads: seq<Thread>, sender: bool) returns (k: nat)
    requires Looking(threads, sender) > 0
    ensures k < |threads| && One(threads[k], sender) == 1
  {
    var last := |threads| - 1;
    if One(threads[last], sender) == 1 {
      k := last;
    } else {
      k := SomeoneLooks(threads[..last], sender);
    }
  }

  /** Whoever waits, as many are on their way as there are items, or places, to be had, but for the late ones. */
  ghost predicate Covered(threads: seq<Thread>, sender: bool, offers: int) {
    AnyWaits(threads, sender) ==> Looking(threads, sender) >= offers
  }

  function Offers(s: State, sender: bool): int {
    if sender then s.depth - |s.items| else |s.items|
  }

  function Late(s: State, sender: bool): nat {
    if sender then s.lateSenders else s.lateReceivers
  }

  ghost predicate Inv(s: State) {
    && |s.items| <= s.depth
    && Covered(s.threads, true, Offers(s, true) - Late(s, true))
    && Covered(s.threads, false, Offers(s, false) - Late(s, false))
    && s.accepted == s.delivered + s.items
  }

  /** A thread that stops being counted, or starts to wait, when there is nothing to be had. */
  lemma CoveredChange(threads: seq<Thread>, k: nat, t: Thread, sender: bool, offers: int, now: int)
    requires k < |threads| && Covered(threads, sender, offers)
    requires now + One(threads[k], sender) <= offers + One(t, sender) || now <= 0
    requires Waits(t, sender) && !Waits(threads[k], sender) ==> now <= 0
    ensures Covered(threads[k := t], sender, now)
  {
    LookingChanges(threads, k, t, sender);
    if AnyWaits(threads[k := t], sender) && now > 0 {
      var j :| 0 <= j < |threads| && Waits(threads[k := t][j], sender);
      assert Waits(threads[j], sender);
    }
  }

  /** One more to be had, and a signal for it. */
  lemma SignalCovers(threads: seq<Thread>, sender: bool, choice: nat, offers: int)
    requires Covered(threads, sender, offers) && Signal(threads, sender, choice).Some?
    ensures var next := Signal(threads, sender, choice).value;
            && |next| == |threads|
            && Covered(next, sender, offers + 1)
  {
    if choice < |threads| && Waits(threads[choice], sender) {
      CoveredChange(threads, choice, Woken(threads[choice].role, threads[choice].timed), sender, offers, offers + 1);
    }
  }

  /** It says nothing to the other side. */
  lemma SignalSpares(threads: seq<Thread>, sender: bool, choice: nat, offers: int)
    requires Covered(threads, !sender, offers) && Signal(threads, sender, choice).Some?
    ensures Covered(Signal(threads, sender, choice).value, !sender, offers)
  {
    if choice < |threads| && Waits(threads[choice], sender) {
      CoveredChange(threads, choice, Woken(threads[choice].role, threads[choice].timed), !sender, offers, offers);
    }
  }

  lemma PassKeepsInv(s: State, k: nat, choice: nat)
    requires Inv(s) && k < |s.threads| && (s.threads[k].Ready? || s.threads[k].Woken?)
    requires Pass(s, k, choice).Some?
    ensures Inv(Pass(s, k, choice).value)
  {
    var t, rest := s.threads[k], s.threads[k := Idle];
    var room, items := Offers(s, true) - Late(s, true), Offers(s, false) - Late(s, false);
    var next := Pass(s, k, choice).value;
    if if t.role.Sender? then |s.items| == s.depth else s.items == [] {
      CoveredChange(s.threads, k, next.threads[k], true, room, room);
      CoveredChange(s.threads, k, next.threads[k], false, items, items);
    } else if t.role.Sender? {
      CoveredChange(s.threads, k, Idle, true, room, room - 1);
      CoveredChange(s.threads, k, Idle, false, items, items);
      SignalCovers(rest, false, choice, items);
      SignalSpares(rest, false, choice, room - 1);
    } else {
      CoveredChange(s.threads, k, Idle, true, room, room);
      CoveredChange(s.threads, k, Idle, false, items, items - 1);
      SignalCovers(rest, true, choice, room);
      SignalSpares(rest, true, choice, items - 1);
      assert s.items == [s.items[0]] + s.items[1..];
    }
  }

  /** Every step of every thread keeps the invariant. */
  lemma StepKeepsInv(s: State, l: Label)
    requires Inv(s) && Step(s, l).Some?
    ensures Inv(Step(s, l).value)
  {
    if l.Run? {
      PassKeepsInv(s, l.k, l.woken);
    } else {
      var next := Step(s, l).value;
      var t := next.threads[l.k];
      CoveredChange(s.threads, l.k, t, true, Offers(s, true) - Late(s, true), Offers(next, true) - Late(next, true));
      CoveredChange(s.threads, l.k, t, false, Offers(s, false) - Late(s, false), Offers(next, false) - Late(next, false));
    }
  }

  // ---------------------------------------------------------------- whole runs

  ghost predicate Reaches(s: State, labels: seq<Label>, t: State)
    decreases |labels|
  {
    if labels == [] then s == t
    else Step(s, labels[0]).Some? && Reaches(Step(s, labels[0]).value, labels[1..], t)
  }

  ghost predicate Reachable(t: State) {
    exists depth: nat, threads: nat, labels :: Reaches(Initial(depth, threads), labels, t)
  }

  lemma {:induction false} RunKeepsInv(s: State, labels: seq<Label>, t: State)
    requires Inv(s) && Reaches(s, labels, t)
    ensures Inv(t)
    decreases |labels|
  {
    if labels != [] {
      StepKeepsInv(s, labels[0]);
      RunKeepsInv(Step(s, labels[0]).value, labels[1..], t);
    }
  }

  lemma ReachableInv(t: State)
    requires Reachable(t)
    ensures Inv(t)
  {
    var depth: nat, threads: nat, labels :| Reaches(Initial(depth, threads), labels, t);
    RunKeepsInv(Initial(depth, threads), labels, t);
  }

  /** In every reachable state the items received, then the items queued, are the items sent, in order. */
  lemma FirstInFirstOut(t: State)
    requires Reachable(t)
    ensures t.accepted == t.delivered + t.items && |t.items| <= t.depth
  {
    ReachableInv(t);
  }

  /** While a sender waits and there is room, or a receiver waits and there is an item, threads of the same kind have
      been woken and have yet to look, one for each place or item but for those whose wakeup a timeout consumed. */
  lemma WakeupsAccounted(t: State, sender: bool)
    requires Reachable(t) && AnyWaits(t.threads, sender)
    ensures Looking(t.threads, sender) + Late(t, sender) >= Offers(t, sender)
  {
    ReachableInv(t);
  }

  /** A thread that has been woken and finds what it waited for sends or receives when it runs next. */
  lemma WokenServes(t: State, sender: bool, k: nat) returns (choice: nat)
    requires Inv(t) && k < |t.threads| && One(t.threads[k], sender) == 1 && Offers(t, sender) > 0
    ensures Step(t, Run(k, choice)).Some?
    ensures var next := Step(t, Run(k, choice)).value;
            if sender then |next.accepted| == |t.accepted| + 1 else |next.delivered| == |t.delivered| + 1
  {
    var rest := t.threads[k := Idle];
    choice := 0;
    if AnyWaits(rest, !sender) {
      choice :| 0 <= choice < |rest| && Waits(rest[choice], !sender);
    }
  }

  /** The calls of one side are not timed: their timeout is 0 or UINT32_MAX. */
  predicate NoTimed(labels: seq<Label>, sender: bool) {
    forall n :: 0 <= n < |labels| && labels[n].Call? && labels[n].role.Sender? == sender ==> !labels[n].timeout.Finite?
  }

  predicate Untimed(s: State, sender: bool) {
    && Late(s, sender) == 0
    && forall k :: 0 <= k < |s.threads| && !s.threads[k].Idle? && s.threads[k].role.Sender? == sender ==>
                     if s.threads[k].Ready? then !s.threads[k].timeout.Finite? else !s.threads[k].timed
  }

  lemma StepUntimed(s: State, l: Label, sender: bool)
    requires Untimed(s, sender) && Step(s, l).Some?
    requires l.Call? && l.role.Sender? == sender ==> !l.timeout.Finite?
    ensures Untimed(Step(s, l).value, sender)
  {}

  lemma {:induction false} RunUntimed(s: State, labels: seq<Label>, t: State, sender: bool)
    requires Untimed(s, sender) && Reaches(s, labels, t) && NoTimed(labels, sender)
    ensures Untimed(t, sender)
    decreases |labels|
  {
    if labels != [] {
      StepUntimed(s, labels[0], sender);
      RunUntimed(Step(s, labels[0]).value, labels[1..], t, sender);
    }
  }

  lemma UntimedReached(depth: nat, threads: nat, labels: seq<Label>, t: State, sender: bool)
    requires Reaches(Initial(depth, threads), labels, t) && NoTimed(labels, sender)
    ensures Inv(t) && Late(t, sender) == 0
  {
    RunKeepsInv(Initial(depth, threads), labels, t);
    RunUntimed(Initial(depth, threads), labels, t, sender);
  }

  /** No lost wakeup in a run in which the waiting side makes no timed call, which is how the bus uses its queues:
      while a sender waits and there is room, or a receiver waits and there is an item, a thread of the same kind
      has been woken and, run next, sends or receives. */
  lemma NoLostWakeup(depth: nat, threads: nat, labels: seq<Label>, t: State, sender: bool) returns (k: nat, choice: nat)
    requires Reaches(Initial(depth, threads), labels, t) && NoTimed(labels, sender)
    requires AnyWaits(t.threads, sender) && Offers(t, sender) > 0
    ensures k < |t.threads| && One(t.threads[k], sender) == 1
    ensures Step(t, Run(k, choice)).Some?
    ensures var next := Step(t, Run(k, choice)).value;
            if sender then |next.accepted| == |t.accepted| + 1 else |next.delivered| == |t.delivered| + 1
  {
    UntimedReached(depth, threads, labels, t, sender);
    k := SomeoneLooks(t.threads, sender);
    choice := WokenServes(t, sender, k);
  }

  /** Then, once everyone has looked, senders wait only on a full queue and receivers only on an empty one. */
  lemma WaitingMeansNothingToDo(depth: nat, threads: nat, labels: seq<Label>, t: State, sender: bool)
    requires Reaches(Initial(depth, threads), labels, t) && NoTimed(labels, sender)
    requires AnyWaits(t.threads, sender) && forall k :: 0 <= k < |t.threads| ==> !t.threads[k].Woken?
    ensures if sender then |t.items| == t.depth else t.items == []
  {
    UntimedReached(depth, threads, labels, t, sender);
    if Looking(t.threads, sender) > 0 {
      var k := SomeoneLooks(t.threads, sender);
    }
  }

  // ---------------------------------------------------------------- what a call does

  /** With the mutex a sender that finds room appends its item and returns, and a receiver that finds an item takes the
      first and returns, and either wakes one waiter of the other kind if there is one; a call that finds neither
      returns at once if its timeout is 0 and waits otherwise. */
  lemma PassOutcome(s: State, k: nat, choice: nat)
    requires k < |s.threads| && Step(s, Run(k, choice)).Some?
    ensures var t, n := s.threads[k], Step(s, Run(k, choice)).value;
            if t.role.Sender? && |s.items| < s.depth then
              && n.items == s.items + [t.role.item] && n.accepted == s.accepted + [t.role.item] && n.delivered == s.delivered
              && n.threads[k] == Idle && OneWoken(s.threads[k := Idle], n.threads, false)
            else if t.role.Receiver? && s.items != [] then
              && s.items == [s.items[0]] + n.items && n.delivered == s.delivered + [s.items[0]] && n.accepted == s.accepted
              && n.threads[k] == Idle && OneWoken(s.threads[k := Idle], n.threads, true)
            else if t == Ready(t.role, Zero) then n == s.(threads := s.threads[k := Idle])
            else n == s.(threads := s.threads[k := Blocked(t.role, if t.Ready? then t.timeout == Finite else t.timed)])
  {
    assert s.items != [] ==> s.items == [s.items[0]] + s.items[1..];
  }

  /** One waiter of this kind, if there is any, has been woken, and nobody else is changed. */
  ghost predicate OneWoken(was: seq<Thread>, now: seq<Thread>, sender: bool) {
    || (now == was && !AnyWaits(was, sender))
    || exists j :: 0 <= j < |was| && Waits(was[j], sender) && now == was[j := Woken(was[j].role, was[j].timed)]
  }

  /** A waiter may wake at any time, and may give up exactly if its call is timed. */
  lemma WaiterSteps(s: State, k: nat)
    requires k < |s.threads| && (s.threads[k].Blocked? || s.threads[k].Woken?)
    ensures s.threads[k].Blocked? ==>
              Step(s, Spurious(k)) == Some(s.(threads := s.threads[k := Woken(s.threads[k].role, s.threads[k].timed)]))
    ensures Step(s, Expire(k)).Some? <==> s.threads[k].timed
    ensures s.threads[k].timed ==>
              var n := Step(s, Expire(k)).value; n.threads == s.threads[k := Idle] && n.items == s.items
  {}

  /** The signals that timeouts of one side have consumed in a run. */
  function Lapses(s: State, labels: seq<Label>, sender: bool): nat
    decreases |labels|
  {
    if labels == [] || Step(s, labels[0]).None? then 0
    else
      var l := labels[0];
      (if l.Expire? && s.threads[l.k].Woken? && s.threads[l.k].role.Sender? == sender then 1 else 0)
      + Lapses(Step(s, l).value, labels[1..], sender)
  }

  /** The late ones are exactly those. */
  lemma {:induction false} LateAreLapses(s: State, labels: seq<Label>, t: State, sender: bool)
    requires Reaches(s, labels, t)
    ensures Late(t, sender) == Late(s, sender) + Lapses(s, labels, sender)
    decreases |labels|
  {
    if labels != [] {
      LateAreLapses(Step(s, labels[0]).value, labels[1..], t, sender);
    }
  }

  // ---------------------------------------------------------------- a wakeup lost to a timeout

  /** Three threads on a queue of depth 1. */
  function Three(items: seq<Item>, a: Thread, b: Thread, c: Thread, accepted: seq<Item>, delivered: seq<Item>, late: nat): State {
    State(1, items, [a, b, c], accepted, delivered, late, 0)
  }

  lemma After(s: State, l: Label, m: State, labels: seq<Label>, t: State)
    requires Step(s, l) == Some(m) && Reaches(m, labels, t)
    ensures Reaches(s, [l] + labels, t)
  {
    assert ([l] + labels)[1..] == labels;
  }

  /** With a timed sender the wakeup can be lost.  Thread 2 fills the queue; sender 0 waits with a finite timeout and
      sender 1 for ever; thread 2 takes the item, and its signal goes to sender 0, whose wait times out.  Sender 1
      then waits beside an empty place, and nobody has been woken to see it. */
  lemma TimeoutLosesWakeup(x: Item) returns (labels: seq<Label>, t: State)
    ensures Reaches(Initial(1, 3), labels, t)
    ensures AnyWaits(t.threads, true) && |t.items| < t.depth
    ensures forall k :: 0 <= k < |t.threads| ==> !t.threads[k].Woken? && !t.threads[k].Ready?
  {
    var ever := Blocked(Sender(x), false);
    t := Three([], Idle, ever, Idle, [x], [x], 1);
    assert Waits(t.threads[1], true);
    labels := [];
    labels := FrontTimed(x, labels, t);
    labels := FrontFull(x, labels, t);
    assert seq(3, _ => Idle) == [Idle, Idle, Idle];
    assert Initial(1, 3) == Three([], Idle, Idle, Idle, [], [], 0);
  }

  /** The receive, its signal and the timeout. */
  lemma FrontTimed(x: Item, labels: seq<Label>, t: State) returns (more: seq<Label>)
    requires Reaches(Three([], Idle, Blocked(Sender(x), false), Idle, [x], [x], 1), labels, t)
    ensures Reaches(Three([x], Blocked(Sender(x), true), Blocked(Sender(x), false), Idle, [x], [], 0), more, t)
  {
    var timed, ever := Blocked(Sender(x), true), Blocked(Sender(x), false);
    var s0 := Three([x], timed, ever, Idle, [x], [], 0);
    var s1 := Three([x], timed, ever, Ready(Receiver, Zero), [x], [], 0);
    var s2 := Three([], Woken(Sender(x), true), ever, Idle, [x], [x], 0);
    var s3 := Three([], Idle, ever, Idle, [x], [x], 1);
    assert Waits(s1.threads[0], true);
    assert s1.threads[2 := Idle] == s0.threads && s0.threads[0 := Woken(Sender(x), true)] == s2.threads;
    assert s0.threads[2 := Ready(Receiver, Zero)] == s1.threads && s2.threads[0 := Idle] == s3.threads;
    assert [] + [x] == [x] && [x][1..] == [];
    After(s2, Expire(0), s3, labels, t);
    After(s1, Run(2, 0), s2, [Expire(0)] + labels, t);
    After(s0, Call(2, Receiver, Zero), s1, [Run(2, 0)] + ([Expire(0)] + labels), t);
    more := [Call(2, Receiver, Zero)] + ([Run(2, 0)] + ([Expire(0)] + labels));
  }

  /** The queue is filled, and two senders come to wait. */
  lemma FrontFull(x: Item, labels: seq<Label>, t: State) returns (more: seq<Label>)
    requires Reaches(Three([x], Blocked(Sender(x), true), Blocked(Sender(x), false), Idle, [x], [], 0), labels, t)
    ensures Reaches(Three([], Idle, Idle, Idle, [], [], 0), more, t)
  {
    var put, timed, ever := Sender(x), Blocked(Sender(x), true), Blocked(Sender(x), false);
    var s0, s1 := Three([], Idle, Idle, Idle, [], [], 0), Three([], Idle, Idle, Ready(put, Zero), [], [], 0);
    var s2, s3 := Three([x], Idle, Idle, Idle, [x], [], 0), Three([x], Ready(put, Finite), Idle, Idle, [x], [], 0);
    var s4, s5 := Three([x], timed, Idle, Idle, [x], [], 0), Three([x], timed, Ready(put, Forever), Idle, [x], [], 0);
    var s6 := Three([x], timed, ever, Idle, [x], [], 0);
    assert s0.threads[2 := Ready(put, Zero)] == s1.threads && s1.threads[2 := Idle] == s2.threads;
    assert s2.threads[0 := Ready(put, Finite)] == s3.threads && s3.threads[0 := timed] == s4.threads;
    assert s4.threads[1 := Ready(put, Forever)] == s5.threads && s5.threads[1 := ever] == s6.threads;
    assert [] + [x] == [x];
    After(s5, Run(1, 0), s6, labels, t);
    more := [Run(1, 0)] + labels;
    After(s4, Call(1, put, Forever), s5, more, t);
    more := [Call(1, put, Forever)] + more;
    After(s3, Run(0, 0), s4, more, t);
    more := [Run(0, 0)] + more;
    After(s2, Call(0, put, Finite), s3, more, t);
    more := [Call(0, put, Finite)] + more;
    After(s1, Run(2, 0), s2, more, t);
    more := [Run(2, 0)] + more;
    After(s0, Call(2, put, Zero), s1, more, t);
    more := [Call(2, put, Zero)] + more;
  }
}
