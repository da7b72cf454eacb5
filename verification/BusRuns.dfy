/** Runs of the whole bus: any mixture of deliveries and receives over all its queues
    (core/src/bus/message_bus.c).  MessageBus.Bus.DeliverOne and ReceiveEp are its two steps. */
module BusRuns {
  import opened Wrappers
  import opened BusQueues
  import opened MessageBus
  import OsalQueue

  datatype BusEvent = Copy(ep: nat, m: Msg) | Fetch(ep: nat, prio: nat)

  /** A copy that a full HIGH queue blocks, and a fetch that finds nothing, change nothing. */
  function BusStep(d: Delivery, e: BusEvent): (r: Delivery)
    requires QueuesFit(d.queues)
    ensures QueuesFit(r.queues) && |r.queues| == |d.queues|
  {
    match e
    case Copy(ep, m) =>
      if ep >= |d.queues| then d
      else
        var delivered := DeliverTo(d, ep, m);
        if delivered.Some? then delivered.value else d
    case Fetch(ep, prio) =>
      if ep >= |d.queues| || prio > 2 || d.queues[ep][prio] == [] then d
      else d.(queues := d.queues[ep := d.queues[ep][prio := OsalQueue.Receive(d.queues[ep][prio])]])
  }

  /** The bus after boot with this many endpoints, and then these events. */
  function BusRun(endpoints: nat, history: seq<BusEvent>): (d: Delivery)
    ensures QueuesFit(d.queues) && |d.queues| == endpoints
  {
    if history == [] then Delivery(seq(endpoints, _ => [[], [], []]), [], [])
    else BusStep(BusRun(endpoints, history[..|history| - 1]), history[|history| - 1])
  }

  /** What an event means to one queue. */
  function Seen(e: BusEvent, ep: nat, p: nat): seq<Event> {
    match e
    case Copy(to, m) => if to == ep && Clamp(m.priority) == p then [BusQueues.Publish(m)] else []
    case Fetch(from, prio) => if from == ep && prio == p then [Take] else []
  }

  /** The history of one queue. */
  function Projected(history: seq<BusEvent>, ep: nat, p: nat): seq<Event> {
    if history == [] then []
    else Projected(history[..|history| - 1], ep, p) + Seen(history[|history| - 1], ep, p)
  }

  function TrackOf(history: seq<BusEvent>, ep: nat, p: nat): Track
    requires p <= 2
  {
    Run(p, Projected(history, ep, p))
  }

  function LostAt(history: seq<BusEvent>, ep: nat, p: nat): nat
    requires p <= 2
  {
    |TrackOf(history, ep, p).lost|
  }

  function LostBy(history: seq<BusEvent>, ep: nat): nat {
    LostAt(history, ep, HIGH) + LostAt(history, ep, NORMAL) + LostAt(history, ep, LOW)
  }

  function Sum(f: nat -> nat, n: nat): nat {
    if n == 0 then 0 else Sum(f, n - 1) + f(n - 1)
  }

  /** The number of messages lost by the queues of the first n endpoints. */
  function LostUpTo(history: seq<BusEvent>, n: nat): nat {
    Sum(ep => LostBy(history, ep), n)
  }

  lemma {:induction false} SumChange(f: nat -> nat, g: nat -> nat, n: nat, at: nat)
    requires forall i: nat :: i < n && i != at ==> g(i) == f(i)
    ensures Sum(g, n) == Sum(f, n) + if at < n then g(at) - f(at) else 0
  {
    if n > 0 {
      SumChange(f, g, n - 1, at);
    }
  }

  /** The queue an event is about. */
  predicate About(e: BusEvent, ep: nat, p: nat) {
    match e
    case Copy(to, m) => to == ep && Clamp(m.priority) == p
    case Fetch(from, prio) => from == ep && prio == p
  }

  lemma SeenIs(e: BusEvent, ep: nat, p: nat)
    ensures Seen(e, ep, p) ==
            if !About(e, ep, p) then [] else if e.Copy? then [BusQueues.Publish(e.m)] else [Take]
  {}

  lemma TrackStep(history: seq<BusEvent>, e: BusEvent, ep: nat, p: nat)
    requires p <= 2
    ensures var t, u := TrackOf(history, ep, p), TrackOf(history + [e], ep, p);
            u == if !About(e, ep, p) then t else Next(p, t, if e.Copy? then BusQueues.Publish(e.m) else Take)
  {
    SeenIs(e, ep, p);
    assert (history + [e])[..|history|] == history;
    var was, seen := Projected(history, ep, p), Seen(e, ep, p);
    if About(e, ep, p) {
      assert (was + seen)[..|was|] == was && (was + seen)[|was|] == seen[0];
    } else {
      assert was + [] == was;
    }
  }

  lemma LostSame(history: seq<BusEvent>, e: BusEvent, ep: nat, p: nat)
    requires p <= 2 && !About(e, ep, p)
    ensures LostAt(history + [e], ep, p) == LostAt(history, ep, p)
  {
    TrackStep(history, e, ep, p);
  }

  /** The events of one endpoint change the losses of one of its queues. */
  lemma LostChangeAt(history: seq<BusEvent>, e: BusEvent, ep: nat, p: nat)
    requires p <= 2 && About(e, ep, p)
    ensures LostBy(history + [e], ep) == LostBy(history, ep) + LostAt(history + [e], ep, p) - LostAt(history, ep, p)
  {
    if p != HIGH {
      LostSame(history, e, ep, HIGH);
    }
    if p != NORMAL {
      LostSame(history, e, ep, NORMAL);
    }
    if p != LOW {
      LostSame(history, e, ep, LOW);
    }
  }

  lemma LostBySame(history: seq<BusEvent>, e: BusEvent, ep: nat)
    requires forall p :: 0 <= p <= 2 ==> !About(e, ep, p)
    ensures LostBy(history + [e], ep) == LostBy(history, ep)
  {
    LostSame(history, e, ep, HIGH);
    LostSame(history, e, ep, NORMAL);
    LostSame(history, e, ep, LOW);
  }

  /** Only the queue that an event is about loses anything by it. */
  lemma LostChange(history: seq<BusEvent>, e: BusEvent, ep: nat, p: nat, n: nat)
    requires p <= 2 && About(e, ep, p) && ep < n
    ensures LostUpTo(history + [e], n) == LostUpTo(history, n) + LostAt(history + [e], ep, p) - LostAt(history, ep, p)
  {
    var f, g := (i: nat) => LostBy(history, i), (i: nat) => LostBy(history + [e], i);
    forall i: nat | i < n && i != ep
      ensures g(i) == f(i)
    {
      LostBySame(history, e, i);
    }
    SumChange(f, g, n, ep);
    LostChangeAt(history, e, ep, p);
  }

  /** Every queue holds what its own history leaves in it. */
  ghost predicate Agree(queues: seq<seq<seq<Msg>>>, history: seq<BusEvent>) {
    forall ep, p :: 0 <= ep < |queues| && 0 <= p <= 2 ==> HoldsTrack(queues, history, ep, p)
  }

  ghost predicate HoldsTrack(queues: seq<seq<seq<Msg>>>, history: seq<BusEvent>, ep: nat, p: nat)
    requires p <= 2
  {
    ep < |queues| && p < |queues[ep]| && queues[ep][p] == TrackOf(history, ep, p).items
  }

  lemma AgreeStep(queues: seq<seq<seq<Msg>>>, history: seq<BusEvent>, e: BusEvent, ep: nat, p: nat)
    requires Agree(queues, history) && ep < |queues| && p <= 2 && About(e, ep, p)
    ensures HoldsTrack(queues, history, ep, p)
    ensures Agree(queues[ep := queues[ep][p := TrackOf(history + [e], ep, p).items]], history + [e])
  {
    assert HoldsTrack(queues, history, ep, p);
    var next := queues[ep := queues[ep][p := TrackOf(history + [e], ep, p).items]];
    forall i, q | 0 <= i < |next| && 0 <= q <= 2
      ensures HoldsTrack(next, history + [e], i, q)
    {
      assert HoldsTrack(queues, history, i, q);
      TrackStep(history, e, i, q);
    }
  }

  /** Nothing is about this queue, as the endpoint or the priority does not exist. */
  lemma NoQueue(queues: seq<seq<seq<Msg>>>, history: seq<BusEvent>, e: BusEvent)
    requires Agree(queues, history) && forall ep, p :: 0 <= ep < |queues| && 0 <= p <= 2 ==> !About(e, ep, p)
    ensures Agree(queues, history + [e]) && LostUpTo(history + [e], |queues|) == LostUpTo(history, |queues|)
  {
    forall i, q | 0 <= i < |queues| && 0 <= q <= 2
      ensures HoldsTrack(queues, history + [e], i, q)
    {
      assert HoldsTrack(queues, history, i, q);
      TrackStep(history, e, i, q);
    }
    LostNowhere(history, e, |queues|);
  }

  lemma LostNowhere(history: seq<BusEvent>, e: BusEvent, n: nat)
    requires forall ep, p :: 0 <= ep < n && 0 <= p <= 2 ==> !About(e, ep, p)
    ensures LostUpTo(history + [e], n) == LostUpTo(history, n)
  {
    var f, g := (i: nat) => LostBy(history, i), (i: nat) => LostBy(history + [e], i);
    forall i: nat | i < n
      ensures g(i) == f(i)
    {
      LostBySame(history, e, i);
    }
    SumChange(f, g, n, n);
  }

  ghost predicate BusInv(d: Delivery, history: seq<BusEvent>) {
    QueuesFit(d.queues) && Agree(d.queues, history) && |d.drops| == LostUpTo(history, |d.queues|)
  }

  lemma CopyKeeps(d: Delivery, history: seq<BusEvent>, ep: nat, m: Msg)
    requires BusInv(d, history) && ep < |d.queues|
    ensures BusInv(BusStep(d, Copy(ep, m)), history + [Copy(ep, m)])
  {
    var e, p := Copy(ep, m), Clamp(m.priority);
    AgreeStep(d.queues, history, e, ep, p);
    DeliveryIsPublish(d, ep, m, TrackOf(history, ep, p));
    TrackStep(history, e, ep, p);
    LostChange(history, e, ep, p, |d.queues|);
    SameQueue(d.queues, ep, p);
  }

  lemma SameQueue(queues: seq<seq<seq<Msg>>>, ep: nat, p: nat)
    requires ep < |queues| && p < |queues[ep]|
    ensures queues[ep := queues[ep][p := queues[ep][p]]] == queues
  {
    assert queues[ep][p := queues[ep][p]] == queues[ep];
  }

  lemma FetchKeeps(d: Delivery, history: seq<BusEvent>, ep: nat, prio: nat)
    requires BusInv(d, history) && ep < |d.queues| && prio <= 2
    ensures BusInv(BusStep(d, Fetch(ep, prio)), history + [Fetch(ep, prio)])
  {
    var e := Fetch(ep, prio);
    AgreeStep(d.queues, history, e, ep, prio);
    TrackStep(history, e, ep, prio);
    LostChange(history, e, ep, prio, |d.queues|);
    SameQueue(d.queues, ep, prio);
  }

  lemma StepKeeps(d: Delivery, history: seq<BusEvent>, e: BusEvent)
    requires BusInv(d, history)
    ensures BusInv(BusStep(d, e), history + [e])
  {
    if e.Copy? && e.ep < |d.queues| {
      CopyKeeps(d, history, e.ep, e.m);
    } else if e.Fetch? && e.ep < |d.queues| && e.prio <= 2 {
      FetchKeeps(d, history, e.ep, e.prio);
    } else {
      NoQueue(d.queues, history, e);
    }
  }

  lemma NothingLost(n: nat)
    ensures LostUpTo([], n) == 0
  {
    if n > 0 {
      NothingLost(n - 1);
    }
  }

  lemma {:induction false} RunKeeps(endpoints: nat, history: seq<BusEvent>)
    ensures BusInv(BusRun(endpoints, history), history)
  {
    if history == [] {
      NothingLost(endpoints);
      forall ep, p | 0 <= ep < endpoints && 0 <= p <= 2
        ensures HoldsTrack(BusRun(endpoints, []).queues, [], ep, p)
      {}
    } else {
      var before, e := history[..|history| - 1], history[|history| - 1];
      RunKeeps(endpoints, before);
      StepKeeps(BusRun(endpoints, before), before, e);
      assert before + [e] == history;
    }
  }

  /** Over every run of the bus, each queue is a run of the queue model on its own events, with everything
      that holds of those: conservation, order, and the policy of its priority. */
  lemma EveryQueueConserves(endpoints: nat, history: seq<BusEvent>, ep: nat, p: nat)
    requires ep < endpoints && p <= 2
    ensures var t := TrackOf(history, ep, p);
            && p < |BusRun(endpoints, history).queues[ep]|
            && BusRun(endpoints, history).queues[ep][p] == t.items
            && TrackInv(p, t)
  {
    RunKeeps(endpoints, history);
    assert HoldsTrack(BusRun(endpoints, history).queues, history, ep, p);
    RunInv(p, Projected(history, ep, p));
  }

  /** Over every run, the drops recorded are as many as the messages that all queues lost. */
  lemma DropsAreLosses(endpoints: nat, history: seq<BusEvent>)
    ensures |BusRun(endpoints, history).drops| == LostUpTo(history, endpoints)
  {
    RunKeeps(endpoints, history);
  }

  /** The copies of one routed message. */
  function Copies(targets: seq<nat>, n: nat, m: Msg): seq<BusEvent>
    requires n <= |targets|
  {
    if n == 0 then [] else Copies(targets, n - 1, m) + [Copy(targets[n - 1], m)]
  }

  /** Routing a message, which Bus.Route does, is a run of its copies. */
  lemma {:induction false} RouteIsRun(endpoints: nat, history: seq<BusEvent>, targets: seq<nat>, n: nat, m: Msg)
    requires n <= |targets| && forall k :: 0 <= k < |targets| ==> targets[k] < endpoints
    requires DeliverAll(BusRun(endpoints, history), targets, n, m).Some?
    ensures DeliverAll(BusRun(endpoints, history), targets, n, m).value == BusRun(endpoints, history + Copies(targets, n, m))
  {
    if n == 0 {
      assert history + [] == history;
    } else {
      RouteIsRun(endpoints, history, targets, n - 1, m);
      var before, last := history + Copies(targets, n - 1, m), Copy(targets[n - 1], m);
      assert history + Copies(targets, n, m) == before + [last];
      assert (before + [last])[..|before|] == before;
    }
  }
}
