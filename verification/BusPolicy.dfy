/** The binding overflow policy (core/src/bus/message_bus.c), in terms of the priority that a message carries. */
module BusPolicy {
  import opened Wrappers
  import opened BusQueues
  import opened MessageBus
  import opened BusRuns

  /** All queues but one are as they were. */
  ghost predicate OnlyQueue(was: seq<seq<seq<Msg>>>, now: seq<seq<seq<Msg>>>, ep: nat, p: nat) {
    && |now| == |was|
    && (forall i :: 0 <= i < |was| && i != ep ==> now[i] == was[i])
    && (ep < |was| ==> |now[ep]| == |was[ep]| && forall q :: 0 <= q < |was[ep]| && q != p ==> now[ep][q] == was[ep][q])
  }

  /** A HIGH message goes to queue 0, waits exactly while that holds 16, and is never dropped. */
  lemma HighPolicy(d: Delivery, ep: nat, m: Msg)
    requires QueuesFit(d.queues) && ep < |d.queues| && m.priority == 0
    ensures var r, was := DeliverTo(d, ep, m), d.queues[ep][0];
            && (r.None? <==> |was| == 16)
            && (r.Some? ==>
                  && OnlyQueue(d.queues, r.value.queues, ep, 0) && r.value.queues[ep][0] == was + [m]
                  && r.value.drops == d.drops && r.value.notified == d.notified + [ep])
  {}

  /** A LOW message goes to queue 2, or is dropped exactly if that holds 16. */
  lemma LowPolicy(d: Delivery, ep: nat, m: Msg)
    requires QueuesFit(d.queues) && ep < |d.queues| && m.priority == 2
    ensures var r, was := DeliverTo(d, ep, m), d.queues[ep][2];
            && r.Some?
            && OnlyQueue(d.queues, r.value.queues, ep, 2)
            && r.value.queues[ep][2] == (if |was| == 16 then was else was + [m])
            && r.value.drops == (if |was| == 16 then d.drops + [Drop(m.source, ep, 2, m.msgId)] else d.drops)
            && r.value.notified == (if |was| == 16 then d.notified else d.notified + [ep])
  {}

  /** A message of any other priority goes to queue 1, which then holds the newest 32; a drop is recorded exactly if
      it was full. */
  lemma NormalPolicy(d: Delivery, ep: nat, m: Msg)
    requires QueuesFit(d.queues) && ep < |d.queues| && m.priority != 0 && m.priority != 2
    ensures var r, was := DeliverTo(d, ep, m), d.queues[ep][1];
            && r.Some?
            && OnlyQueue(d.queues, r.value.queues, ep, 1)
            && r.value.queues[ep][1] == (if |was| == 32 then was[1..] else was) + [m]
            && r.value.drops == (if |was| == 32 then d.drops + [Drop(m.source, ep, 1, m.msgId)] else d.drops)
            && r.value.notified == d.notified + [ep]
  {}

  // ---------------------------------------------------------------- whole runs

  /** The queue that a message of this priority belongs to. */
  predicate Belongs(priority: nat, p: nat) {
    if priority == 0 then p == 0 else if priority == 2 then p == 2 else p == 1
  }

  ghost predicate QueueInPlace(items: seq<Msg>, p: nat) {
    forall k :: 0 <= k < |items| ==> Belongs(items[k].priority, p)
  }

  /** Every message waits in the queue of its priority, and no drop was of a HIGH one. */
  ghost predicate InPlace(d: Delivery) {
    && (forall ep, p :: 0 <= ep < |d.queues| && 0 <= p < |d.queues[ep]| ==> QueueInPlace(d.queues[ep][p], p))
    && (forall k :: 0 <= k < |d.drops| ==> d.drops[k].priority == 1 || d.drops[k].priority == 2)
  }

  lemma QueueGrows(items: seq<Msg>, p: nat, m: Msg)
    requires QueueInPlace(items, p) && Belongs(m.priority, p)
    ensures QueueInPlace(items + [m], p)
    ensures items != [] ==> QueueInPlace(items[1..] + [m], p)
  {}

  lemma OneQueue(was: Delivery, now: Delivery, ep: nat, p: nat)
    requires InPlace(was) && ep < |was.queues| && p < |was.queues[ep]|
    requires OnlyQueue(was.queues, now.queues, ep, p) && QueueInPlace(now.queues[ep][p], p)
    requires now.drops == was.drops
          || (now.drops != [] && now.drops[..|now.drops| - 1] == was.drops && now.drops[|now.drops| - 1].priority in {1, 2})
    ensures InPlace(now)
  {
    forall i, q | 0 <= i < |now.queues| && 0 <= q < |now.queues[i]|
      ensures QueueInPlace(now.queues[i][q], q)
    {
      if i != ep || q != p {
        assert now.queues[i][q] == was.queues[i][q];
      }
    }
  }

  lemma CopyInPlace(d: Delivery, ep: nat, m: Msg)
    requires QueuesFit(d.queues) && InPlace(d) && ep < |d.queues|
    ensures InPlace(BusStep(d, Copy(ep, m)))
  {
    var now := BusStep(d, Copy(ep, m));
    var p := if m.priority == 0 then 0 else if m.priority == 2 then 2 else 1;
    QueueGrows(d.queues[ep][p], p, m);
    if m.priority == 0 {
      HighPolicy(d, ep, m);
    } else if m.priority == 2 {
      LowPolicy(d, ep, m);
    } else {
      NormalPolicy(d, ep, m);
    }
    OneQueue(d, now, ep, p);
  }

  lemma {:induction false} EveryRunInPlace(endpoints: nat, history: seq<BusEvent>)
    ensures InPlace(BusRun(endpoints, history))
  {
    if history != [] {
      var before, e := history[..|history| - 1], history[|history| - 1];
      EveryRunInPlace(endpoints, before);
      if e.Copy? && e.ep < endpoints {
        CopyInPlace(BusRun(endpoints, before), e.ep, e.m);
      }
    }
  }

  /** The HIGH message that endpoint ep accepts by an event: fewer than 16 are waiting. */
  function HighPut(d: Delivery, e: BusEvent, ep: nat): seq<Msg>
    requires QueuesFit(d.queues) && ep < |d.queues|
  {
    if e.Copy? && e.ep == ep && e.m.priority == 0 && |d.queues[ep][0]| < 16 then [e.m] else []
  }

  /** The message that it takes from queue 0. */
  function HighTake(d: Delivery, e: BusEvent, ep: nat): seq<Msg>
    requires QueuesFit(d.queues) && ep < |d.queues|
  {
    if e == Fetch(ep, 0) && d.queues[ep][0] != [] then [d.queues[ep][0][0]] else []
  }

  function HighAccepted(endpoints: nat, history: seq<BusEvent>, ep: nat): seq<Msg>
    requires ep < endpoints
  {
    if history == [] then []
    else
      var before, e := history[..|history| - 1], history[|history| - 1];
      HighAccepted(endpoints, before, ep) + HighPut(BusRun(endpoints, before), e, ep)
  }

  function HighTaken(endpoints: nat, history: seq<BusEvent>, ep: nat): seq<Msg>
    requires ep < endpoints
  {
    if history == [] then []
    else
      var before, e := history[..|history| - 1], history[|history| - 1];
      HighTaken(endpoints, before, ep) + HighTake(BusRun(endpoints, before), e, ep)
  }

  lemma HighStep(d: Delivery, e: BusEvent, ep: nat)
    requires QueuesFit(d.queues) && ep < |d.queues|
    ensures HighTake(d, e, ep) + BusStep(d, e).queues[ep][0] == d.queues[ep][0] + HighPut(d, e, ep)
  {
    if e.Copy? && e.ep < |d.queues| {
      if e.m.priority == 0 {
        HighPolicy(d, e.ep, e.m);
      } else if e.m.priority == 2 {
        LowPolicy(d, e.ep, e.m);
      } else {
        NormalPolicy(d, e.ep, e.m);
      }
    }
  }

  lemma Balance(taken: seq<Msg>, take: seq<Msg>, was: seq<Msg>, now: seq<Msg>, put: seq<Msg>)
    requires take + now == was + put
    ensures (taken + take) + now == (taken + was) + put
  {
    assert (taken + take) + now == taken + (take + now);
    assert taken + (was + put) == (taken + was) + put;
  }

  /** No HIGH message is ever lost: over every run, what an endpoint took and what waits are, in order, all that it
      accepted. */
  lemma {:induction false} HighNeverLost(endpoints: nat, history: seq<BusEvent>, ep: nat)
    requires ep < endpoints
    ensures HighTaken(endpoints, history, ep) + BusRun(endpoints, history).queues[ep][0] == HighAccepted(endpoints, history, ep)
  {
    if history != [] {
      var before, e := history[..|history| - 1], history[|history| - 1];
      var d := BusRun(endpoints, before);
      HighNeverLost(endpoints, before, ep);
      HighStep(d, e, ep);
      Balance(HighTaken(endpoints, before, ep), HighTake(d, e, ep), d.queues[ep][0], BusStep(d, e).queues[ep][0], HighPut(d, e, ep));
    }
  }
}
