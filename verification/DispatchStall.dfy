/** When dispatch comes to a standstill: the sub-functions publish on their own dispatch thread, and a HIGH send to
    a full queue waits (core/src/bus/message_bus.c, core/src/registry/fb_engine.c). */
module DispatchStall {
  import opened Wrappers
  import opened Dispatch
  import BusQueues

  /** A thread that takes no message any more until the joins of a shutdown have ended. */
  predicate Gone(s: State, j: nat)
    requires j < |s.eps|
  {
    (s.eps[j].thread.Exited? || s.eps[j].thread.NoThread?) && (s.ctl.Up? || s.ctl.Posting? || s.ctl.Joining?)
  }

  /** Thread i is in a HIGH send of its handler to a full queue whose thread is one of d, or gone. */
  ghost predicate Caught(s: State, d: set<nat>, i: nat)
    requires WellFormed(s)
  {
    && i < |s.eps| && s.eps[i].thread.Handling?
    && PublisherFits(s, s.pubs[i]) && InHighSend(s, i)
    && (s.pubs[i].ep in d || Gone(s, s.pubs[i].ep))
  }

  /** Threads that wait for each other, or for one that is gone. */
  ghost predicate Knot(s: State, d: set<nat>)
    requires WellFormed(s)
  {
    d != {} && forall i :: i in d ==> Caught(s, d, i)
  }

  // ---------------------------------------------------------------- a knot never comes undone

  lemma PublisherKeepsKnot(s: State, k: nat, d: set<nat>, i: nat)
    requires Inv(s) && Knot(s, d) && Step(s, PublisherStep(k)).Some? && i in d
    requires WellFormed(Step(s, PublisherStep(k)).value)
    ensures Caught(Step(s, PublisherStep(k)).value, d, i)
    ensures Step(s, PublisherStep(k)).value.pubs[i] == s.pubs[i]
  {
    var t := Step(s, PublisherStep(k)).value;
    assert Caught(s, d, i);
    assert PublisherFits(s, s.pubs[k]);
    assert PublisherFits(t, t.pubs[i]);
  }

  lemma ThreadKeepsKnot(s: State, j: nat, d: set<nat>, i: nat)
    requires Inv(s) && Knot(s, d) && Step(s, ThreadStep(j)).Some? && i in d
    requires WellFormed(Step(s, ThreadStep(j)).value)
    ensures Caught(Step(s, ThreadStep(j)).value, d, i)
  {
    var t := Step(s, ThreadStep(j)).value;
    assert Caught(s, d, i);
    assert j in d ==> Caught(s, d, j);
    assert PublisherFits(t, t.pubs[i]);
  }

  /** What the controller leaves of an endpoint that is in a handler, or gone. */
  lemma ControllerSpares(s: State, created: bool, j: nat)
    requires Inv(s) && Step(s, ControllerStep(created)).Some? && j < |s.eps|
    ensures var t := Step(s, ControllerStep(created)).value;
            && |t.eps| == |s.eps| && t.pubs == s.pubs && t.eps[j].queues == s.eps[j].queues
            && (s.eps[j].thread.Handling? ==> t.eps[j].thread.Handling? && !t.ctl.Down? && (s.ctl.Joining? ==> t.ctl.Joining?))
            && (Gone(s, j) && !t.ctl.Down? ==> Gone(t, j))
  {
    assert EndpointInv(s, j);
  }

  lemma ControllerKeepsKnot(s: State, created: bool, d: set<nat>, i: nat)
    requires Inv(s) && Knot(s, d) && Step(s, ControllerStep(created)).Some? && i in d
    requires WellFormed(Step(s, ControllerStep(created)).value)
    ensures Caught(Step(s, ControllerStep(created)).value, d, i)
    ensures s.ctl.Joining? ==> Step(s, ControllerStep(created)).value.ctl.Joining?
  {
    var t := Step(s, ControllerStep(created)).value;
    assert Caught(s, d, i);
    ControllerSpares(s, created, i);
    ControllerSpares(s, created, s.pubs[i].ep);
    assert PublisherFits(t, t.pubs[i]);
  }

  lemma StepKeepsKnot(s: State, l: Label, d: set<nat>)
    requires Inv(s) && Knot(s, d) && Step(s, l).Some?
    ensures Inv(Step(s, l).value) && Knot(Step(s, l).value, d)
    ensures forall i :: i in d ==> Step(s, l).value.pubs[i] == s.pubs[i]
    ensures s.ctl.Joining? ==> Step(s, l).value.ctl.Joining?
  {
    Dispatch.StepKeepsInv(s, l);
    var t := Step(s, l).value;
    forall i | i in d
      ensures Caught(t, d, i) && t.pubs[i] == s.pubs[i] && (s.ctl.Joining? ==> t.ctl.Joining?)
    {
      assert Caught(s, d, i);
      match l
      case Publish(_, _, _, _) => assert PublisherFits(t, t.pubs[i]);
      case PublisherStep(k) => PublisherKeepsKnot(s, k, d, i);
      case ThreadStep(j) => ThreadKeepsKnot(s, j, d, i);
      case ControllerStep(created) => ControllerKeepsKnot(s, created, d, i);
    }
    var i :| i in d;
  }

  /** Whatever anyone does, the threads of a knot stay in their sends, and a shutdown that joins them never ends. */
  lemma {:induction false} KnotForever(s: State, labels: seq<Label>, t: State, d: set<nat>)
    requires Inv(s) && Knot(s, d) && Reaches(s, labels, t)
    ensures Inv(t) && Knot(t, d)
    ensures forall i :: i in d ==> t.pubs[i] == s.pubs[i] && !Moves(t, i)
    ensures s.ctl.Joining? ==> t.ctl.Joining?
    decreases |labels|
  {
    if labels == [] {
      forall i | i in d
        ensures !Moves(t, i)
      {
        assert Caught(t, d, i);
        MovesIff(t, i);
      }
    } else {
      StepKeepsKnot(s, labels[0], d);
      KnotForever(Step(s, labels[0]).value, labels[1..], t, d);
    }
  }

  // ---------------------------------------------------------------- nothing else stops dispatch

  /** No dispatch thread can take a step, and no publisher is about to post. */
  ghost predicate Stalled(s: State)
    requires WellFormed(s)
  {
    forall i :: 0 <= i < |s.eps| ==> !Moves(s, i) && !PostPending(s, i)
  }

  /** A live thread in a stalled state waits for messages and has none, or is caught. */
  lemma StalledThread(s: State, i: nat)
    requires Inv(s) && Stalled(s) && (s.ctl.Up? || s.ctl.Joining?) && i < |s.eps| && Live(s.eps[i].thread)
    ensures PublisherFits(s, s.pubs[i])
    ensures InHighSend(s, i) || (s.ctl.Up? && s.eps[i].thread.Waiting? && !Queued(s.eps[i], 3))
  {
    assert EndpointInv(s, i);
    MovesIff(s, i);
  }

  lemma CaughtInStall(s: State, d: set<nat>, i: nat)
    requires Inv(s) && Stalled(s) && (s.ctl.Up? || s.ctl.Joining?) && i < |s.eps|
    requires PublisherFits(s, s.pubs[i]) && InHighSend(s, i)
    requires forall j :: 0 <= j < |s.eps| && PublisherFits(s, s.pubs[j]) && InHighSend(s, j) ==> j in d
    ensures Caught(s, d, i)
  {
    var j := s.pubs[i].ep;
    assert s.eps[j].queues[0] != [];
    if Live(s.eps[j].thread) {
      StalledThread(s, j);
    }
  }

  /** Exactly knots stop dispatch: where it stalls, the threads in HIGH sends form a knot; without any, the
      live threads wait with empty queues, and during the joins there is none left. */
  lemma StallIsKnot(s: State) returns (d: set<nat>)
    requires Inv(s) && Stalled(s) && (s.ctl.Up? || s.ctl.Joining?)
    ensures d != {} ==> Knot(s, d)
    ensures d == {} ==> forall i :: 0 <= i < |s.eps| && Live(s.eps[i].thread) ==>
                          s.ctl.Up? && s.eps[i].thread.Waiting? && !Queued(s.eps[i], 3)
  {
    forall k | 0 <= k < |s.pubs|
      ensures PublisherFits(s, s.pubs[k])
    {}
    d := set i: nat | i < |s.eps| && InHighSend(s, i);
    forall i | i in d
      ensures Caught(s, d, i)
    {
      CaughtInStall(s, d, i);
    }
    forall i | 0 <= i < |s.eps| && Live(s.eps[i].thread)
      ensures d == {} ==> s.ctl.Up? && s.eps[i].thread.Waiting? && !Queued(s.eps[i], 3)
    {
      StalledThread(s, i);
      assert InHighSend(s, i) ==> i in d;
    }
  }

  // ---------------------------------------------------------------- what a caller can see to

  /** Handlers publish HIGH only to endpoints of a lower rank. */
  predicate Ranked(labels: seq<Label>, endpoints: nat, rank: nat -> nat) {
    forall n :: 0 <= n < |labels| && labels[n].Publish? && labels[n].pub < endpoints && labels[n].prio == 0 ==>
                  rank(labels[n].ep) < rank(labels[n].pub)
  }

  predicate SendsDown(s: State, rank: nat -> nat)
    requires |s.eps| <= |s.pubs|
  {
    forall i :: 0 <= i < |s.eps| && s.pubs[i].Send? && s.pubs[i].prio == 0 ==> rank(s.pubs[i].ep) < rank(i)
  }

  lemma StepSendsDown(s: State, l: Label, rank: nat -> nat)
    requires WellFormed(s) && SendsDown(s, rank) && Step(s, l).Some?
    requires l.Publish? && l.pub < |s.eps| && l.prio == 0 ==> rank(l.ep) < rank(l.pub)
    ensures var t := Step(s, l).value; |t.eps| == |s.eps| <= |t.pubs| && SendsDown(t, rank)
  {
    if l.PublisherStep? {
      assert PublisherFits(s, s.pubs[l.pub]);
    }
  }

  lemma {:induction false} RunSendsDown(s: State, labels: seq<Label>, t: State, rank: nat -> nat)
    requires Inv(s) && SendsDown(s, rank) && Reaches(s, labels, t) && Ranked(labels, |s.eps|, rank)
    ensures Inv(t) && |t.eps| == |s.eps| && SendsDown(t, rank)
    decreases |labels|
  {
    if labels != [] {
      StepSendsDown(s, labels[0], rank);
      Dispatch.StepKeepsInv(s, labels[0]);
      RunSendsDown(Step(s, labels[0]).value, labels[1..], t, rank);
    }
  }

  /** In a run whose handlers publish no HIGH message, no dispatch thread is ever in a HIGH send: a queued message
      always finds its thread or a post on the move, and once shutdown has posted, every live thread moves. */
  lemma QuietHandlersMove(endpoints: nat, publishers: nat, labels: seq<Label>, t: State, i: nat)
    requires Reaches(Initial(endpoints, publishers), labels, t) && i < endpoints
    requires forall n :: 0 <= n < |labels| && labels[n].Publish? && labels[n].pub < endpoints ==> labels[n].prio != 0
    ensures Inv(t) && |t.eps| == endpoints && PublisherFits(t, t.pubs[i]) && !InHighSend(t, i)
    ensures t.ctl.Joining? && Live(t.eps[i].thread) ==> Moves(t, i)
    ensures !t.shutdown && !t.eps[i].thread.NoThread? && Queued(t.eps[i], 3) ==> Moves(t, i) || PostPending(t, i)
  {
    InitialInv(endpoints, publishers);
    RunSendsDown(Initial(endpoints, publishers), labels, t, _ => 0);
    assert PublisherFits(t, t.pubs[i]);
    assert Reachable(t);
    if t.ctl.Joining? && Live(t.eps[i].thread) {
      ShutdownUnblocksIff(t, i);
    }
    if !t.shutdown && !t.eps[i].thread.NoThread? && Queued(t.eps[i], 3) {
      SomeoneMoves(t, i);
    }
  }

  lemma {:induction false} SomeLowerMoves(t: State, rank: nat -> nat, i: nat) returns (j: nat)
    requires Inv(t) && SendsDown(t, rank) && i < |t.eps| && t.ctl.Up?
    requires forall k :: 0 <= k < |t.eps| ==> !t.eps[k].thread.NoThread?
    requires Queued(t.eps[i], 3)
    ensures j < |t.eps| && (Moves(t, j) || PostPending(t, j))
    decreases rank(i)
  {
    assert EndpointInv(t, i);
    MovesIff(t, i);
    if InHighSend(t, i) {
      var lower := t.pubs[i].ep;
      assert t.eps[lower].queues[0] != [];
      j := SomeLowerMoves(t, rank, lower);
    } else {
      j := i;
    }
  }

  /** While dispatch is up with all its threads, and handlers publish HIGH only down some ranking of the
      endpoints, a message queued anywhere means that some thread or some post can move. */
  lemma RankedHandlersMove(endpoints: nat, publishers: nat, labels: seq<Label>, t: State, rank: nat -> nat, i: nat)
      returns (j: nat)
    requires Reaches(Initial(endpoints, publishers), labels, t) && Ranked(labels, endpoints, rank)
    requires i < |t.eps| && t.ctl.Up? && forall k :: 0 <= k < |t.eps| ==> !t.eps[k].thread.NoThread?
    requires WellFormed(t) && Queued(t.eps[i], 3)
    ensures j < |t.eps| && (Moves(t, j) || PostPending(t, j))
  {
    InitialInv(endpoints, publishers);
    RunSendsDown(Initial(endpoints, publishers), labels, t, rank);
    j := SomeLowerMoves(t, rank, i);
  }

  // ---------------------------------------------------------------- two runs into a knot

  /** An external publisher delivers one HIGH message to a queue with room. */
  function Delivered(s: State, j: nat, x: Msg): State
    requires j < |s.eps| && |s.eps[j].queues| == 3
  {
    var e := Push(s.eps[j], 0, x);
    s.(eps := s.eps[j := e.(sem := Post(e.sem))])
  }

  lemma DeliverHigh(s: State, k: nat, j: nat, x: Msg) returns (labels: seq<Label>)
    requires WellFormed(s) && |s.eps| <= k < |s.pubs| && s.pubs[k].Idle? && j < |s.eps| && !Full(s.eps[j], 0)
    ensures Reaches(s, labels, Delivered(s, j, x)) && WellFormed(Delivered(s, j, x))
  {
    var begin, go := Publish(k, j, 0, x), PublisherStep(k);
    var s1 := s.(pubs := s.pubs[k := Send(j, 0, x)]);
    StepFits(s, begin);
    var s2 := s1.(eps := s.eps[j := Push(s.eps[j], 0, x)], pubs := s.pubs[k := Notify(j)]);
    assert s1.pubs[k := Notify(j)] == s2.pubs;
    StepFits(s1, go);
    var t := Delivered(s, j, x);
    assert s2.pubs[k := Idle] == s.pubs;
    assert s2.eps[j := t.eps[j]] == t.eps;
    StepFits(s2, go);
    OneStep(s, begin, s1);
    OneStep(s1, go, s2);
    OneStep(s2, go, t);
    ReachesBoth(s1, [go], s2, [go], t);
    ReachesBoth(s, [begin], s1, [go] + [go], t);
    labels := [begin] + ([go] + [go]);
  }

  /** Only endpoint j differs, and there only the HIGH queue and the count. */
  ghost predicate Fuller(s: State, t: State, j: nat)
    requires j < |s.eps|
  {
    && WellFormed(t) && |t.eps| == |s.eps| && t == s.(eps := s.eps[j := t.eps[j]])
    && t.eps[j] == s.eps[j].(queues := t.eps[j].queues, sem := t.eps[j].sem)
  }

  lemma {:induction false} FillHigh(s: State, k: nat, j: nat, x: Msg) returns (labels: seq<Label>, t: State)
    requires WellFormed(s) && |s.eps| <= k < |s.pubs| && s.pubs[k].Idle? && j < |s.eps|
    ensures Reaches(s, labels, t) && Fuller(s, t, j) && Full(t.eps[j], 0)
    decreases BusQueues.Depth(0) - |s.eps[j].queues[0]|
  {
    if Full(s.eps[j], 0) {
      labels, t := [], s;
      assert s.eps[j := s.eps[j]] == s.eps;
    } else {
      var first := DeliverHigh(s, k, j, x);
      var rest;
      rest, t := FillHigh(Delivered(s, j, x), k, j, x);
      ReachesBoth(s, first, Delivered(s, j, x), rest, t);
      labels := first + rest;
      assert s.eps[j := Delivered(s, j, x).eps[j]][j := t.eps[j]] == s.eps[j := t.eps[j]];
    }
  }

  function Fresh(): Endpoint {
    Endpoint([[], [], []], 0, LoopHead, 0, [])
  }

  /** Dispatch just booted, all threads created, one thread beside them. */
  function JustUp(endpoints: nat): State {
    State(seq(endpoints, _ => Fresh()), seq(endpoints + 1, _ => Idle), Up, true, false)
  }

  /** The first n threads exist. */
  function Created(endpoints: nat, n: nat): State
    requires n <= endpoints
  {
    State(seq(endpoints, i => NewEndpoint(i, n)), seq(endpoints + 1, _ => Idle), Starting(n), true, false)
  }

  function NewEndpoint(i: int, n: nat): Endpoint {
    Endpoint([[], [], []], 0, if i < n then LoopHead else NoThread, 0, [])
  }

  lemma {:induction false} CreateAll(endpoints: nat, n: nat) returns (labels: seq<Label>)
    requires n <= endpoints
    ensures Reaches(Created(endpoints, n), labels, JustUp(endpoints))
    decreases endpoints - n
  {
    var s, go := Created(endpoints, n), ControllerStep(true);
    assert forall i :: 0 <= i < endpoints ==> s.eps[i] == NewEndpoint(i, n);
    if n == endpoints {
      assert s.eps == JustUp(endpoints).eps;
      OneStep(s, go, JustUp(endpoints));
      labels := [go];
    } else {
      var more := Created(endpoints, n + 1).eps;
      assert forall i :: 0 <= i < endpoints ==> more[i] == NewEndpoint(i, n + 1);
      assert s.eps[n := s.eps[n].(thread := LoopHead)] == Created(endpoints, n + 1).eps;
      OneStep(s, go, Created(endpoints, n + 1));
      var rest := CreateAll(endpoints, n + 1);
      ReachesBoth(s, [go], Created(endpoints, n + 1), rest, JustUp(endpoints));
      labels := [go] + rest;
    }
  }

  lemma StartUp(endpoints: nat) returns (labels: seq<Label>)
    ensures Reaches(Initial(endpoints, 1), labels, JustUp(endpoints))
  {
    var s, go := Initial(endpoints, 1), ControllerStep(true);
    forall i | 0 <= i < endpoints
      ensures s.eps[i] == Created(endpoints, 0).eps[i]
    {
      assert Created(endpoints, 0).eps[i] == NewEndpoint(i, 0);
    }
    assert s.eps == Created(endpoints, 0).eps;
    OneStep(s, go, Created(endpoints, 0));
    var rest := CreateAll(endpoints, 0);
    ReachesBoth(s, [go], Created(endpoints, 0), rest, JustUp(endpoints));
    labels := [go] + rest;
  }

  /** Endpoint 0 of a booted system is in its handler, with empty queues. */
  function Busy(endpoints: nat, x: Msg): State
    requires endpoints > 0
  {
    var s := JustUp(endpoints);
    s.(eps := s.eps[0 := Fresh().(thread := Handling(x))])
  }

  lemma GetBusy(endpoints: nat, x: Msg) returns (labels: seq<Label>)
    requires endpoints > 0
    ensures Reaches(Initial(endpoints, 1), labels, Busy(endpoints, x))
  {
    var s := JustUp(endpoints);
    var boot := StartUp(endpoints);
    var first := DeliverHigh(s, endpoints, 0, x);
    var m := Delivered(s, 0, x);
    HandlerEntered(x);
    var own := ThreadAlone(m, 0, 4);
    assert m.eps[0 := Fresh().(thread := Handling(x))] == Busy(endpoints, x).eps;
    ReachesBoth(Initial(endpoints, 1), boot, s, first, m);
    ReachesBoth(Initial(endpoints, 1), boot + first, m, own, Busy(endpoints, x));
    labels := boot + first + own;
  }

  lemma HandlerEntered(x: Msg)
    ensures var e := Push(Fresh(), 0, x).(sem := 1);
            Iterate(e, 4) == Some(Fresh().(thread := Handling(x)))
  {
    var e := Push(Fresh(), 0, x).(sem := 1);
    assert Fresh().queues[0] + [x] == [x];
    assert e.queues == [[x], [], []];
    var scan := e.(sem := 0, thread := Scan(0));
    assert [x][1..] == [];
    assert Pop(scan, 0).queues == [[], [], []];
    assert Iterate(scan, 1) == Some(Fresh().(thread := Handling(x)));
    assert Iterate(e.(sem := 0, thread := Woken), 2) == Iterate(scan, 1);
    assert Iterate(e.(thread := Waiting), 3) == Iterate(e.(sem := 0, thread := Woken), 2);
  }

  /** A handler publishes HIGH. */
  lemma Publishes(s: State, i: nat, j: nat, x: Msg)
    requires WellFormed(s) && i < |s.eps| && s.eps[i].thread.Handling? && s.pubs[i].Idle? && j < |s.eps|
    ensures var t := s.(pubs := s.pubs[i := Send(j, 0, x)]); WellFormed(t) && Reaches(s, [Publish(i, j, 0, x)], t)
  {
    var t := s.(pubs := s.pubs[i := Send(j, 0, x)]);
    StepFits(s, Publish(i, j, 0, x));
    OneStep(s, Publish(i, j, 0, x), t);
  }

  /** While dispatch is up: a handler that sends HIGH to its own endpoint, whose queue others have filled. */
  lemma SelfKnot(x: Msg) returns (labels: seq<Label>, t: State)
    ensures Reaches(Initial(1, 1), labels, t) && WellFormed(t)
    ensures t.ctl.Up? && Knot(t, {0}) && Queued(t.eps[0], 3)
  {
    var first := GetBusy(1, x);
    var s := Busy(1, x);
    var fill, m := FillHigh(s, 1, 0, x);
    Publishes(m, 0, 0, x);
    t := m.(pubs := m.pubs[0 := Send(0, 0, x)]);
    ReachesBoth(Initial(1, 1), first, s, fill, m);
    ReachesBoth(Initial(1, 1), first + fill, m, [Publish(0, 0, 0, x)], t);
    labels := first + fill + [Publish(0, 0, 0, x)];
    assert PublisherFits(t, t.pubs[0]);
    assert Caught(t, {0}, 0);
    assert t.eps[0].queues[0] != [];
  }

  /** In a shutdown: the handler of endpoint 0 sends HIGH to endpoint 1, whose thread leaves at its post although
      its queue is full.  The joins wait for endpoint 0, and nobody empties the queue. */
  lemma ShutdownKnot(x: Msg) returns (labels: seq<Label>, t: State)
    ensures Reaches(Initial(2, 1), labels, t) && WellFormed(t)
    ensures t.ctl.Joining? && Knot(t, {0})
  {
    var first := GetBusy(2, x);
    var s := Busy(2, x);
    var fill, m := FillHigh(s, 2, 1, x);
    Publishes(m, 0, 1, x);
    var sent := m.(pubs := m.pubs[0 := Send(1, 0, x)]);
    var last;
    last, t := ShutDown(sent);
    ReachesBoth(Initial(2, 1), first, s, fill, m);
    ReachesBoth(Initial(2, 1), first + fill, m, [Publish(0, 1, 0, x)], sent);
    ReachesBoth(Initial(2, 1), first + fill + [Publish(0, 1, 0, x)], sent, last, t);
    labels := first + fill + [Publish(0, 1, 0, x)] + last;
    assert PublisherFits(t, t.pubs[0]);
    assert Caught(t, {0}, 0);
  }

  /** The posts of a shutdown, and then the steps in which the idle thread of endpoint 1 leaves. */
  lemma ShutDown(s: State) returns (labels: seq<Label>, t: State)
    requires WellFormed(s) && |s.eps| == 2 && s.ctl.Up? && s.running && !s.shutdown
    requires s.eps[1].thread.LoopHead? && s.pubs[1].Idle?
    ensures Reaches(s, labels, t) && WellFormed(t) && t.ctl == Joining(0) && t.pubs == s.pubs && |t.eps| == 2
    ensures t.eps[1].thread.Exited? && t.eps[0].thread == s.eps[0].thread
    ensures t.eps[0].queues == s.eps[0].queues && t.eps[1].queues == s.eps[1].queues
  {
    var go, leave := ControllerStep(true), ThreadStep(1);
    var s1 := Step(s, go).value;
    StepFits(s, go);
    var s2 := Step(s1, go).value;
    StepFits(s1, go);
    var s3 := Step(s2, go).value;
    StepFits(s2, go);
    var s4 := Step(s3, go).value;
    StepFits(s3, go);
    var s5 := Step(s4, leave).value;
    StepFits(s4, leave);
    var s6 := Step(s5, leave).value;
    StepFits(s5, leave);
    t := Step(s6, leave).value;
    StepFits(s6, leave);
    OneStep(s, go, s1);
    OneStep(s1, go, s2);
    OneStep(s2, go, s3);
    OneStep(s3, go, s4);
    OneStep(s4, leave, s5);
    OneStep(s5, leave, s6);
    OneStep(s6, leave, t);
    ReachesBoth(s, [go], s1, [go], s2);
    ReachesBoth(s, [go] + [go], s2, [go], s3);
    ReachesBoth(s, [go] + [go] + [go], s3, [go], s4);
    ReachesBoth(s4, [leave], s5, [leave], s6);
    ReachesBoth(s4, [leave] + [leave], s6, [leave], t);
    ReachesBoth(s, [go] + [go] + [go] + [go], s4, [leave] + [leave] + [leave], t);
    labels := [go] + [go] + [go] + [go] + ([leave] + [leave] + [leave]);
  }
}
