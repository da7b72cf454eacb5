/** Dispatch threads, publishers and the shutdown controller as one state machine over their
    atomic steps (core/src/registry/fb_engine.c, core/src/bus/message_bus.c).

    A queue operation, a semaphore operation and a read or write of a flag is one step; any
    step of any thread may come next.  Every endpoint here has subscriptions, so boot has
    created its semaphore, and the bus already has the notify callback.  The sub-functions of
    endpoint i run on its dispatch thread and may publish: publisher i is that thread inside a
    publish.  The publishers behind the endpoints' are all other threads. */
module Dispatch {
  import opened Wrappers
  import BusQueues

  type Msg = BusQueues.Msg

  const SEM_MAX: nat := 0xFFFF_FFFF

  /** Where a dispatch thread stands. */
  datatype Thread =
    | NoThread             // never created, or joined
    | LoopHead             // about to test the running flag
    | Waiting              // inside the semaphore wait
    | Woken                // past the wait, about to read the shutdown flag
    | Scan(prio: nat)      // about to poll this queue, the higher ones were empty
    | Handling(msg: Msg)   // in the sub-functions, inside a publish unless its publisher is idle
    | Exited

  /** Where a publisher stands within one delivery. */
  datatype Publisher =
    | Idle
    | Send(ep: nat, prio: nat, msg: Msg)
    | DropOldest(ep: nat, msg: Msg)
    | Resend(ep: nat, msg: Msg)
    | Notify(ep: nat)

  /** Where the caller of dispatch_boot and dispatch_shutdown stands. */
  datatype Controller =
    | Down
    | Starting(next: nat)
    | Up
    | Posting(next: nat)
    | Joining(next: nat)

  /** `taken` counts the posts this endpoint's thread consumed since the shutdown flag was
      last set, `handled` the messages its sub-functions have received. */
  datatype Endpoint = Endpoint(
    queues: seq<seq<Msg>>,
    sem: nat,
    thread: Thread,
    taken: nat,
    handled: seq<Msg>)

  datatype State = State(
    eps: seq<Endpoint>,
    pubs: seq<Publisher>,
    ctl: Controller,
    running: bool,
    shutdown: bool)

  datatype Label =
    | Publish(pub: nat, ep: nat, prio: nat, msg: Msg)  // an idle publisher, or a handler, starts a delivery
    | PublisherStep(pub: nat)
    | ThreadStep(ep: nat)
    | ControllerStep(created: bool)                     // created: whether a task creation succeeds

  function Post(sem: nat): nat {
    if sem < SEM_MAX then sem + 1 else sem
  }

  /** publishers counts the threads that are not dispatch threads. */
  function Initial(endpoints: nat, publishers: nat): State {
    State(seq(endpoints, _ => Endpoint([[], [], []], 0, NoThread, 0, [])),
          seq(endpoints + publishers, _ => Idle), Down, false, false)
  }

  ghost predicate WellFormed(s: State) {
    && |s.eps| <= |s.pubs|
    && (forall i :: 0 <= i < |s.eps| ==> |s.eps[i].queues| == 3)
    && (forall i :: 0 <= i < |s.eps| && s.eps[i].thread.Scan? ==> s.eps[i].thread.prio < 3)
    && (forall k :: 0 <= k < |s.pubs| ==> PublisherFits(s, s.pubs[k]))
  }

  predicate PublisherFits(s: State, p: Publisher) {
    match p
    case Idle => true
    case Send(ep, prio, _) => ep < |s.eps| && prio < 3
    case DropOldest(ep, _) => ep < |s.eps|
    case Resend(ep, _) => ep < |s.eps|
    case Notify(ep) => ep < |s.eps|
  }

  function Push(e: Endpoint, prio: nat, msg: Msg): Endpoint
    requires prio < |e.queues|
  {
    e.(queues := e.queues[prio := e.queues[prio] + [msg]])
  }

  function Pop(e: Endpoint, prio: nat): Endpoint
    requires prio < |e.queues| && e.queues[prio] != []
  {
    e.(queues := e.queues[prio := e.queues[prio][1..]])
  }

  function Full(e: Endpoint, prio: nat): bool
    requires prio < |e.queues|
  {
    |e.queues[prio]| >= BusQueues.Depth(prio)
  }

  /** One step inside a delivery: what becomes of the endpoint and of the publisher.  None
      means that the publisher is blocked. */
  function Deliver(e: Endpoint, p: Publisher): Option<(Endpoint, Publisher)>
    requires |e.queues| == 3 && !p.Idle? && (p.Send? ==> p.prio < 3)
  {
    match p
    case Send(ep, prio, msg) =>
      if !Full(e, prio) then Some((Push(e, prio, msg), Notify(ep)))
      else if prio == 0 then None                       // HIGH blocks
      else if prio == 1 then Some((e, DropOldest(ep, msg)))
      else Some((e, Idle))                              // LOW drops the incoming message
    case DropOldest(ep, msg) =>
      Some((if e.queues[1] != [] then Pop(e, 1) else e, Resend(ep, msg)))
    case Resend(ep, msg) =>
      Some((if !Full(e, 1) then Push(e, 1, msg) else e, Notify(ep)))
    case Notify(ep) =>
      Some((e.(sem := Post(e.sem)), Idle))
  }

  /** One step of a dispatch thread; None means that it is blocked or gone. */
  function Advance(e: Endpoint, running: bool, shutdown: bool): Option<Endpoint>
    requires |e.queues| == 3 && (e.thread.Scan? ==> e.thread.prio < 3)
  {
    match e.thread
    case NoThread => None
    case LoopHead => Some(e.(thread := if running then Waiting else Exited))
    case Waiting =>
      if e.sem == 0 then None
      else Some(e.(sem := e.sem - 1, thread := Woken, taken := if shutdown then e.taken + 1 else e.taken))
    case Woken => Some(e.(thread := if shutdown then Exited else Scan(0)))
    case Scan(p) =>
      if e.queues[p] != [] then Some(Pop(e, p).(thread := Handling(e.queues[p][0])))
      else if p < 2 then Some(e.(thread := Scan(p + 1)))
      else Some(e.(thread := LoopHead))
    case Handling(m) => Some(e.(thread := Scan(0), handled := e.handled + [m]))
    case Exited => None
  }

  function Control(s: State, created: bool): Option<State> {
    match s.ctl
    case Down => Some(s.(ctl := Starting(0), running := true))
    case Starting(i) =>
      if i < |s.eps| then
        Some(s.(ctl := Starting(i + 1),
                eps := if created then s.eps[i := s.eps[i].(thread := LoopHead)] else s.eps))
      else Some(s.(ctl := Up))
    case Up =>
      Some(s.(ctl := Posting(0), shutdown := true,
              eps := seq(|s.eps|, i requires 0 <= i < |s.eps| => s.eps[i].(taken := 0))))
    case Posting(i) =>
      if i < |s.eps| then
        Some(s.(ctl := Posting(i + 1), eps := s.eps[i := s.eps[i].(sem := Post(s.eps[i].sem))]))
      else Some(s.(ctl := Joining(0)))
    case Joining(i) =>
      if i < |s.eps| then
        if s.eps[i].thread.NoThread? then Some(s.(ctl := Joining(i + 1)))
        else if s.eps[i].thread.Exited? then
          Some(s.(ctl := Joining(i + 1), eps := s.eps[i := s.eps[i].(thread := NoThread)]))
        else None                                       // the join waits
      else Some(s.(ctl := Down, running := false, shutdown := false))
  }

  function Step(s: State, l: Label): Option<State>
    requires WellFormed(s)
  {
    match l
    case Publish(k, ep, prio, msg) =>
      if k < |s.pubs| && s.pubs[k].Idle? && ep < |s.eps| && prio < 3 && (k < |s.eps| ==> s.eps[k].thread.Handling?)
      then Some(s.(pubs := s.pubs[k := Send(ep, prio, msg)]))
      else None
    case PublisherStep(k) =>
      if k < |s.pubs| && !s.pubs[k].Idle? then
        var p := s.pubs[k];
        match Deliver(s.eps[p.ep], p)
        case None => None
        case Some((e, q)) => Some(s.(eps := s.eps[p.ep := e], pubs := s.pubs[k := q]))
      else None
    case ThreadStep(i) =>
      if i < |s.eps| && s.pubs[i].Idle? then
        match Advance(s.eps[i], s.running, s.shutdown)
        case None => None
        case Some(e) => Some(s.(eps := s.eps[i := e]))
      else None
    case ControllerStep(created) => Control(s, created)
  }

  // ---------------------------------------------------------------- the invariant

  ghost predicate PostPending(s: State, i: nat) {
    exists k :: 0 <= k < |s.pubs| && s.pubs[k] == Notify(i)
  }

  /** Some queue above priority p (all of them for p = 3) holds a message. */
  predicate Queued(e: Endpoint, p: nat)
    requires |e.queues| == 3 && p <= 3
  {
    exists j :: 0 <= j < p && e.queues[j] != []
  }

  /** Shutdown has posted this endpoint's semaphore. */
  predicate ShutdownPosted(s: State, i: nat) {
    s.shutdown && match s.ctl
    case Posting(n) => i < n
    case Joining(_) => true
    case _ => false
  }

  predicate Live(t: Thread) {
    t.LoopHead? || t.Waiting? || t.Woken? || t.Scan? || t.Handling?
  }

  /** A live thread that has yet to take its shutdown post. */
  predicate Unserved(t: Thread) {
    Live(t) && !t.Woken?
  }

  function Owed(s: State, i: nat): nat
    requires i < |s.eps|
  {
    if ShutdownPosted(s, i) && Unserved(s.eps[i].thread) then 1 else 0
  }

  /** A message the thread will not see again before its next wait is announced, by a post
      beyond the one owed to shutdown or by a publisher about to post. */
  ghost predicate Announced(s: State, i: nat, p: nat)
    requires i < |s.eps| && |s.eps[i].queues| == 3 && p <= 3
  {
    Queued(s.eps[i], p) ==> s.eps[i].sem > Owed(s, i) || PostPending(s, i)
  }

  ghost predicate EndpointInv(s: State, i: nat)
    requires WellFormed(s) && i < |s.eps|
  {
    var e := s.eps[i];
    && Owed(s, i) <= e.sem <= SEM_MAX
    && (match e.thread
        case NoThread => Announced(s, i, 3)
        case LoopHead => Announced(s, i, 3)
        case Waiting => Announced(s, i, 3)
        case Scan(p) => Announced(s, i, p)
        case Handling(_) => true
        case Woken => ShutdownPosted(s, i) ==> Announced(s, i, 3)
        case Exited => ShutdownPosted(s, i) ==> Announced(s, i, 3))
    && (s.shutdown ==> e.taken <= if Unserved(e.thread) then 0 else 1)
    && (Live(e.thread) ==> s.running)
    && (e.thread.Exited? ==> s.shutdown)
  }

  ghost predicate ControllerInv(s: State)
    requires WellFormed(s)
  {
    && s.shutdown == (s.ctl.Posting? || s.ctl.Joining?)
    && s.running == !s.ctl.Down?
    && (s.ctl.Down? ==> forall i :: 0 <= i < |s.eps| ==> s.eps[i].thread.NoThread?)
    && (s.ctl.Starting? ==> forall i :: s.ctl.next <= i < |s.eps| ==> s.eps[i].thread.NoThread?)
    && (s.ctl.Joining? ==> forall i :: 0 <= i < s.ctl.next && i < |s.eps| ==> s.eps[i].thread.NoThread?)
  }

  /** Only a thread in its sub-functions can be inside a publish. */
  ghost predicate HandlersInv(s: State)
    requires WellFormed(s)
  {
    forall i :: 0 <= i < |s.eps| && !s.pubs[i].Idle? ==> s.eps[i].thread.Handling?
  }

  ghost predicate Inv(s: State) {
    && WellFormed(s)
    && ControllerInv(s)
    && HandlersInv(s)
    && forall i :: 0 <= i < |s.eps| ==> EndpointInv(s, i)
  }

  lemma InitialInv(endpoints: nat, publishers: nat)
    ensures Inv(Initial(endpoints, publishers))
  {}

  /** Publishers of a well-formed state fit any state with as many endpoints. */
  lemma StillFit(s: State, t: State)
    requires WellFormed(s) && |t.eps| == |s.eps| && |t.pubs| == |s.pubs|
    requires forall i :: 0 <= i < |t.eps| ==> |t.eps[i].queues| == 3 && (t.eps[i].thread.Scan? ==> t.eps[i].thread.prio < 3)
    requires forall k :: 0 <= k < |t.pubs| ==> t.pubs[k] == s.pubs[k] || PublisherFits(s, t.pubs[k])
    ensures WellFormed(t)
  {
    forall k | 0 <= k < |t.pubs|
      ensures PublisherFits(t, t.pubs[k])
    {
      assert PublisherFits(s, s.pubs[k]);
    }
  }

  lemma PublisherShape(s: State, k: nat)
    requires WellFormed(s) && Step(s, PublisherStep(k)).Some?
    ensures var t := Step(s, PublisherStep(k)).value;
            && |t.eps| == |s.eps| && |t.pubs| == |s.pubs|
            && (forall i :: 0 <= i < |t.eps| ==> |t.eps[i].queues| == 3 && t.eps[i].thread == s.eps[i].thread)
            && (forall j :: 0 <= j < |t.pubs| ==> t.pubs[j] == s.pubs[j] || PublisherFits(s, t.pubs[j]))
  {
    assert PublisherFits(s, s.pubs[k]);
  }

  lemma ControllerShape(s: State, created: bool)
    requires WellFormed(s) && Step(s, ControllerStep(created)).Some?
    ensures var t := Step(s, ControllerStep(created)).value;
            && |t.eps| == |s.eps| && t.pubs == s.pubs
            && forall i :: 0 <= i < |t.eps| ==> t.eps[i].queues == s.eps[i].queues && (t.eps[i].thread.Scan? ==> s.eps[i].thread == t.eps[i].thread)
  {}

  /** An endpoint that did not change, with no post lost. */
  lemma EndpointStays(s: State, t: State, i: nat)
    requires WellFormed(s) && WellFormed(t) && i < |s.eps| == |t.eps| && EndpointInv(s, i)
    requires t.eps[i] == s.eps[i] && t.ctl == s.ctl && t.running == s.running && t.shutdown == s.shutdown
    requires PostPending(s, i) ==> PostPending(t, i)
    ensures EndpointInv(t, i)
  {}

  lemma PublishKeepsInv(s: State, k: nat, ep: nat, prio: nat, msg: Msg)
    requires Inv(s) && Step(s, Publish(k, ep, prio, msg)).Some?
    ensures Inv(Step(s, Publish(k, ep, prio, msg)).value)
  {
    var t := Step(s, Publish(k, ep, prio, msg)).value;
    StillFit(s, t);
    forall i | 0 <= i < |s.eps| ensures EndpointInv(t, i) {
      PostsKept(s, t, k, i);
      EndpointStays(s, t, i);
    }
  }

  /** A post stays pending when another publisher moves. */
  lemma PostsKept(s: State, t: State, k: nat, i: nat)
    requires |t.pubs| == |s.pubs| && k < |s.pubs| && s.pubs[k] != Notify(i)
    requires forall j :: 0 <= j < |s.pubs| && j != k ==> t.pubs[j] == s.pubs[j]
    ensures PostPending(s, i) ==> PostPending(t, i)
  {
    if PostPending(s, i) {
      var m :| 0 <= m < |s.pubs| && s.pubs[m] == Notify(i);
      assert t.pubs[m] == Notify(i);
    }
  }

  lemma PublisherKeepsEndpoint(s: State, k: nat, i: nat)
    requires Inv(s) && Step(s, PublisherStep(k)).Some? && i < |s.eps|
    requires WellFormed(Step(s, PublisherStep(k)).value)
    ensures EndpointInv(Step(s, PublisherStep(k)).value, i)
  {
    var t := Step(s, PublisherStep(k)).value;
    var p := s.pubs[k];
    assert PublisherFits(s, p);
    assert EndpointInv(s, i);
    if p != Notify(i) {
      PostsKept(s, t, k, i);
    }
    if p.ep != i {
      EndpointStays(s, t, i);
    } else {
      DeliveredKeeps(s, t, k, i);
    }
  }

  /** The endpoint that a publisher's step is about. */
  lemma DeliveredKeeps(s: State, t: State, k: nat, i: nat)
    requires WellFormed(s) && WellFormed(t) && i < |s.eps| && EndpointInv(s, i)
    requires k < |s.pubs| && !s.pubs[k].Idle? && s.pubs[k].ep == i && (s.pubs[k].Send? ==> s.pubs[k].prio < 3)
    requires Deliver(s.eps[i], s.pubs[k]).Some?
    requires var (e, q) := Deliver(s.eps[i], s.pubs[k]).value; t == s.(eps := s.eps[i := e], pubs := s.pubs[k := q])
    requires s.pubs[k] == Notify(i) || (PostPending(s, i) ==> PostPending(t, i))
    ensures EndpointInv(t, i)
  {
    if t.pubs[k] == Notify(i) {
      assert PostPending(t, i);
    }
  }

  lemma PublisherKeepsInv(s: State, k: nat)
    requires Inv(s) && Step(s, PublisherStep(k)).Some?
    ensures Inv(Step(s, PublisherStep(k)).value)
  {
    var t := Step(s, PublisherStep(k)).value;
    PublisherShape(s, k);
    StillFit(s, t);
    forall i | 0 <= i < |s.eps| ensures EndpointInv(t, i) {
      PublisherKeepsEndpoint(s, k, i);
    }
  }

  lemma ThreadKeepsInv(s: State, i: nat)
    requires Inv(s) && Step(s, ThreadStep(i)).Some?
    ensures Inv(Step(s, ThreadStep(i)).value)
  {
    var t := Step(s, ThreadStep(i)).value;
    StillFit(s, t);
    forall j | 0 <= j < |s.eps| ensures EndpointInv(t, j) {
      assert EndpointInv(s, j);
      assert PostPending(t, j) == PostPending(s, j);
      if j == i {
        AdvancedKeeps(s, t, i);
      } else {
        EndpointStays(s, t, j);
      }
    }
  }

  lemma AdvancedKeeps(s: State, t: State, i: nat)
    requires WellFormed(s) && WellFormed(t) && i < |s.eps| && EndpointInv(s, i)
    requires s.shutdown == (s.ctl.Posting? || s.ctl.Joining?)
    requires var e := Advance(s.eps[i], s.running, s.shutdown); e.Some? && t == s.(eps := s.eps[i := e.value])
    requires PostPending(t, i) == PostPending(s, i)
    ensures EndpointInv(t, i)
  {}

  lemma ControllerKeepsEndpoint(s: State, created: bool, j: nat)
    requires Inv(s) && Step(s, ControllerStep(created)).Some? && j < |s.eps|
    requires WellFormed(Step(s, ControllerStep(created)).value)
    ensures EndpointInv(Step(s, ControllerStep(created)).value, j)
  {
    var t := Step(s, ControllerStep(created)).value;
    assert EndpointInv(s, j);
    assert PostPending(t, j) == PostPending(s, j);
    match s.ctl
    case Up => UpKeeps(s, t, j);
    case Posting(_) => PostKeeps(s, t, j);
    case _ =>
  }

  lemma UpKeeps(s: State, t: State, j: nat)
    requires Inv(s) && s.ctl.Up? && Control(s, true) == Some(t) && WellFormed(t) && j < |s.eps|
    requires PostPending(t, j) == PostPending(s, j)
    ensures EndpointInv(t, j)
  {
    assert EndpointInv(s, j);
  }

  lemma PostKeeps(s: State, t: State, j: nat)
    requires Inv(s) && s.ctl.Posting? && Control(s, true) == Some(t) && WellFormed(t) && j < |s.eps|
    requires PostPending(t, j) == PostPending(s, j)
    ensures EndpointInv(t, j)
  {
    assert EndpointInv(s, j);
  }

  lemma ControllerKeepsInv(s: State, created: bool)
    requires Inv(s) && Step(s, ControllerStep(created)).Some?
    ensures Inv(Step(s, ControllerStep(created)).value)
  {
    var t := Step(s, ControllerStep(created)).value;
    ControllerShape(s, created);
    StillFit(s, t);
    ControllerFlags(s, t, created);
    forall j | 0 <= j < |s.eps| ensures EndpointInv(t, j) {
      ControllerKeepsEndpoint(s, created, j);
    }
  }

  lemma ControllerFlags(s: State, t: State, created: bool)
    requires Inv(s) && Control(s, created) == Some(t) && WellFormed(t)
    ensures ControllerInv(t) && HandlersInv(t)
  {}

  /** Every step of every thread keeps the invariant. */
  lemma StepKeepsInv(s: State, l: Label)
    requires Inv(s) && Step(s, l).Some?
    ensures Inv(Step(s, l).value)
  {
    match l
    case Publish(k, ep, prio, msg) => PublishKeepsInv(s, k, ep, prio, msg);
    case PublisherStep(k) => PublisherKeepsInv(s, k);
    case ThreadStep(i) => ThreadKeepsInv(s, i);
    case ControllerStep(created) => ControllerKeepsInv(s, created);
  }

  // ---------------------------------------------------------------- whole runs

  /** t is reached from s by these steps, each of which was enabled. */
  ghost predicate Reaches(s: State, labels: seq<Label>, t: State)
    decreases |labels|
  {
    if labels == [] then s == t
    else WellFormed(s) && Step(s, labels[0]).Some? && Reaches(Step(s, labels[0]).value, labels[1..], t)
  }

  ghost predicate Reachable(t: State) {
    exists endpoints: nat, publishers: nat, labels :: Reaches(Initial(endpoints, publishers), labels, t)
  }

  lemma {:induction false} RunKeepsInv(s: State, labels: seq<Label>, t: State)
    requires Inv(s) && Reaches(s, labels, t)
    ensures Inv(t)
    decreases |labels|
  {
    if labels != [] {
      StepKeepsInv(s, labels[0]);
      RunKeepsInv(Step(s, labels[0]).value, labels[1..], t);
    }
  }

  lemma ReachableInv(t: State)
    requires Reachable(t)
    ensures Inv(t)
  {
    var endpoints: nat, publishers: nat, labels :| Reaches(Initial(endpoints, publishers), labels, t);
    InitialInv(endpoints, publishers);
    RunKeepsInv(Initial(endpoints, publishers), labels, t);
  }

  lemma ReachesNext(s: State, a: seq<Label>, m: State) returns (next: State)
    requires a != [] && Reaches(s, a, m)
    ensures OneOn(s, a[0], next) && Reaches(next, a[1..], m)
  {
    next := Step(s, a[0]).value;
  }

  ghost predicate OneOn(s: State, l: Label, t: State) {
    WellFormed(s) && Step(s, l) == Some(t)
  }

  lemma ReachesMore(s: State, a: seq<Label>, b: seq<Label>, next: State, t: State)
    requires a != [] && OneOn(s, a[0], next) && Reaches(next, a[1..] + b, t)
    ensures Reaches(s, a + b, t)
  {
    assert (a + b)[0] == a[0] && (a + b)[1..] == a[1..] + b;
  }

  lemma {:induction false} ReachesBoth(s: State, a: seq<Label>, m: State, b: seq<Label>, t: State)
    requires Reaches(s, a, m) && Reaches(m, b, t)
    ensures Reaches(s, a + b, t)
    decreases |a|
  {
    if a == [] {
      assert a + b == b;
    } else {
      var next := ReachesNext(s, a, m);
      ReachesBoth(next, a[1..], m, b, t);
      ReachesMore(s, a, b, next, t);
    }
  }

  lemma OneStep(s: State, l: Label, t: State)
    requires WellFormed(s) && Step(s, l) == Some(t)
    ensures Reaches(s, [l], t)
  {
    assert [l][1..] == [];
  }

  /** Every step leads to a well-formed state. */
  lemma StepFits(s: State, l: Label)
    requires WellFormed(s) && Step(s, l).Some?
    ensures var t := Step(s, l).value; WellFormed(t) && |t.eps| == |s.eps| && |t.pubs| == |s.pubs|
  {
    match l
    case PublisherStep(k) =>
      PublisherShape(s, k);
      StillFit(s, Step(s, l).value);
    case ControllerStep(created) =>
      ControllerShape(s, created);
      StillFit(s, Step(s, l).value);
    case _ => StillFit(s, Step(s, l).value);
  }

  /** No lost wakeup: a thread blocked on its semaphore while one of its queues holds a
      message has a publisher between enqueue and post. */
  lemma NoLostWakeup(t: State, i: nat)
    requires Reachable(t) && i < |t.eps|
    requires |t.eps[i].queues| == 3
    requires t.eps[i].thread.Waiting? && t.eps[i].sem == 0 && Queued(t.eps[i], 3)
    ensures PostPending(t, i)
  {
    ReachableInv(t);
    assert EndpointInv(t, i);
  }

  /** The thread of endpoint i, or the publish it is inside, can take a step. */
  ghost predicate Moves(s: State, i: nat)
    requires WellFormed(s) && i < |s.eps|
  {
    Step(s, ThreadStep(i)).Some? || Step(s, PublisherStep(i)).Some?
  }

  /** The thread waits in a HIGH send of its handler to a full queue. */
  predicate InHighSend(s: State, i: nat)
    requires i < |s.pubs| && PublisherFits(s, s.pubs[i]) && forall k :: 0 <= k < |s.eps| ==> |s.eps[k].queues| == 3
  {
    s.pubs[i].Send? && s.pubs[i].prio == 0 && Full(s.eps[s.pubs[i].ep], 0)
  }

  /** A live thread is blocked exactly in a HIGH send to a full queue or in its wait at count 0. */
  lemma MovesIff(t: State, i: nat)
    requires Inv(t) && i < |t.eps| && Live(t.eps[i].thread)
    ensures PublisherFits(t, t.pubs[i])
    ensures Moves(t, i) <==> !InHighSend(t, i) && !(t.eps[i].thread.Waiting? && t.eps[i].sem == 0)
  {
    assert EndpointInv(t, i);
    assert PublisherFits(t, t.pubs[i]);
  }

  /** While dispatch is up, a queued message means that its thread can move, that a publisher about to post it can,
      or that the thread waits in a HIGH send of its own handler; and in that wait it cannot move. */
  lemma SomeoneMoves(t: State, i: nat)
    requires Reachable(t) && i < |t.eps| && WellFormed(t)
    requires !t.shutdown && !t.eps[i].thread.NoThread? && Queued(t.eps[i], 3)
    ensures PublisherFits(t, t.pubs[i])
    ensures InHighSend(t, i) ==> !Moves(t, i)
    ensures !InHighSend(t, i) ==>
              || Moves(t, i)
              || exists k :: 0 <= k < |t.pubs| && t.pubs[k] == Notify(i) && Step(t, PublisherStep(k)).Some?
  {
    ReachableInv(t);
    assert EndpointInv(t, i);
    MovesIff(t, i);
    if t.eps[i].thread.Waiting? && t.eps[i].sem == 0 {
      var k :| 0 <= k < |t.pubs| && t.pubs[k] == Notify(i);
      assert PublisherFits(t, t.pubs[k]);
      assert Step(t, PublisherStep(k)).Some?;
    }
  }

  /** Once shutdown has posted every semaphore, a dispatch thread is blocked exactly in a HIGH send of its handler. */
  lemma ShutdownUnblocksIff(t: State, i: nat)
    requires Reachable(t) && i < |t.eps| && WellFormed(t)
    requires t.ctl.Joining? && Live(t.eps[i].thread)
    ensures PublisherFits(t, t.pubs[i])
    ensures Moves(t, i) <==> !InHighSend(t, i)
  {
    ReachableInv(t);
    assert EndpointInv(t, i);
    MovesIff(t, i);
  }

  /** A thread takes at most one post after the shutdown flag is set. */
  lemma OnePostPerThread(t: State, i: nat)
    requires Reachable(t) && i < |t.eps| && t.shutdown
    ensures t.eps[i].taken <= 1
  {
    ReachableInv(t);
    assert EndpointInv(t, i);
  }

  /** After the joins, messages left in the queues are announced: by the semaphore count, or
      by a publisher that has yet to post. */
  lemma LeftoversAnnounced(t: State, i: nat)
    requires Reachable(t) && i < |t.eps| && |t.eps[i].queues| == 3
    requires t.ctl.Down? && Queued(t.eps[i], 3) && !PostPending(t, i)
    ensures t.eps[i].sem > 0
  {
    ReachableInv(t);
    assert EndpointInv(t, i);
  }

  // ---------------------------------------------------------------- draining

  function Iterate(e: Endpoint, n: nat): Option<Endpoint>
    requires |e.queues| == 3 && (e.thread.Scan? ==> e.thread.prio < 3)
    decreases n
  {
    if n == 0 then Some(e)
    else match Advance(e, true, false)
         case None => None
         case Some(f) => Iterate(f, n - 1)
  }

  /** What a thread leaves that drains undisturbed: everything handled, higher priorities
      first, each queue in order. */
  function Drained(e: Endpoint): Endpoint
    requires |e.queues| == 3
  {
    e.(queues := [[], [], []], thread := LoopHead, handled := e.handled + e.queues[0] + e.queues[1] + e.queues[2])
  }

  lemma {:induction false} ThreadAlone(s: State, i: nat, n: nat) returns (labels: seq<Label>)
    requires WellFormed(s) && i < |s.eps| && s.running && !s.shutdown && s.pubs[i].Idle?
    requires Iterate(s.eps[i], n).Some?
    ensures forall l :: l in labels ==> l == ThreadStep(i)
    ensures Reaches(s, labels, s.(eps := s.eps[i := Iterate(s.eps[i], n).value]))
    decreases n
  {
    if n == 0 {
      assert s.eps[i := s.eps[i]] == s.eps;
      labels := [];
    } else {
      var t := Step(s, ThreadStep(i)).value;
      forall k | 0 <= k < |t.pubs| ensures PublisherFits(t, t.pubs[k]) {
        assert PublisherFits(s, s.pubs[k]);
      }
      var rest := ThreadAlone(t, i, n - 1);
      labels := [ThreadStep(i)] + rest;
      assert t.eps[i := Iterate(t.eps[i], n - 1).value] == s.eps[i := Iterate(s.eps[i], n).value];
      assert labels[1..] == rest;
    }
  }
}
