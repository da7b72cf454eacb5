/** The message bus itself: table, routing and delivery (core/src/bus/message_bus.c). */
module MessageBus {
  import opened Words
  import opened Wrappers
  import opened SubscriptionTable
  import opened BusQueues
  import OsalQueue

  const MAX_ENDPOINTS: nat := 64

  /** The Observatory drop event: publisher, subscriber, priority, message id. */
  datatype Drop = Drop(source: nat, target: nat, priority: nat, msgId: nat)

  /** Everything a delivery can change. */
  datatype Delivery = Delivery(queues: seq<seq<seq<Msg>>>, drops: seq<Drop>, notified: seq<nat>)

  ghost predicate QueuesFit(queues: seq<seq<seq<Msg>>>) {
    forall ep :: 0 <= ep < |queues| ==>
      |queues[ep]| == 3 && forall p :: 0 <= p < 3 ==> |queues[ep][p]| <= Depth(p)
  }

  /** One copy to one subscriber; None while a HIGH queue is full. */
  function DeliverTo(d: Delivery, ep: nat, m: Msg): (r: Option<Delivery>)
    requires QueuesFit(d.queues) && ep < |d.queues|
    ensures r.Some? ==> QueuesFit(r.value.queues) && |r.value.queues| == |d.queues|
  {
    var p := Clamp(m.priority);
    var drop := Drop(m.source, ep, p, m.msgId);
    match Deliver(p, d.queues[ep][p], m)
    case Blocked => None
    case Queued(items) => Some(Delivery(d.queues[ep := d.queues[ep][p := items]], d.drops, d.notified + [ep]))
    case Evicted(items, _) => Some(Delivery(d.queues[ep := d.queues[ep][p := items]], d.drops + [drop], d.notified + [ep]))
    case Refused(items) => Some(Delivery(d.queues, d.drops + [drop], d.notified))
  }

  /** Copies to the first n targets, in order; None if one of them blocks. */
  function DeliverAll(d: Delivery, targets: seq<nat>, n: nat, m: Msg): (r: Option<Delivery>)
    requires QueuesFit(d.queues) && n <= |targets|
    requires forall k :: 0 <= k < |targets| ==> targets[k] < |d.queues|
    ensures r.Some? ==> QueuesFit(r.value.queues) && |r.value.queues| == |d.queues|
    decreases n
  {
    if n == 0 then Some(d)
    else
      match DeliverAll(d, targets, n - 1, m)
      case None => None
      case Some(e) => DeliverTo(e, targets[n - 1], m)
  }

  lemma CappedStable(a: seq<Sub>, b: seq<Sub>)
    ensures |a| >= MAX_SUBSCRIPTIONS ==> Capped(a + b) == Capped(a)
    ensures |a| < MAX_SUBSCRIPTIONS ==> Capped(a) == a
  {}

  lemma {:induction false} FlattenBelow(subs: seq<seq<nat>>)
    ensures forall k :: 0 <= k < |Flatten(subs)| ==> Flatten(subs)[k].ep < |subs|
  {
    if subs != [] {
      FlattenBelow(subs[..|subs| - 1]);
    }
  }

  lemma {:induction false} MatchingBelow(table: seq<Sub>, id: nat, n: nat)
    requires forall k :: 0 <= k < |table| ==> table[k].ep < n
    ensures forall k :: 0 <= k < |Matching(table, id)| ==> Matching(table, id)[k].ep < n
  {
    if table != [] {
      MatchingBelow(table[..|table| - 1], id, n);
    }
  }

  /** Every target of a routed message is a registered block. */
  lemma TargetsBelow(subs: seq<seq<nat>>, id: nat)
    ensures forall k :: 0 <= k < |Targets(subs, id)| ==> Targets(subs, id)[k] < |subs|
  {
    FlattenBelow(subs);
    MatchingBelow(Kept(subs), id, |subs|);
  }

  lemma StableExtends(a: seq<Sub>, b: seq<Sub>, x: Sub)
    requires StableArrangement(a, b)
    ensures StableArrangement(a + [x], b + [x])
  {
    forall id ensures Matching(a + [x], id) == Matching(b + [x], id) {
      MatchingConcat(a, [x], id);
      MatchingConcat(b, [x], id);
    }
  }

  lemma StableTransitive(a: seq<Sub>, b: seq<Sub>, c: seq<Sub>)
    requires StableArrangement(a, b) && StableArrangement(b, c)
    ensures StableArrangement(a, c)
  {}

  /** The inner loop stopped at `at`: everything before is not greater than the key. */
  lemma Placed(was: seq<Sub>, now: seq<Sub>, i: nat, at: nat, key: Sub)
    requires at <= i < |was| == |now| && key == was[i] && Sorted(was[..i])
    requires at > 0 ==> was[at - 1].msgId <= key.msgId
    requires forall k :: at <= k < i ==> was[k].msgId > key.msgId
    requires forall k :: 0 <= k < at ==> now[k] == was[k]
    requires forall k :: at < k <= i ==> now[k] == was[k - 1]
    requires now[at] == key
    ensures Sorted(now[..i + 1])
    ensures StableArrangement(now[..i + 1], was[..i + 1])
  {
    var lo, hi := was[..at], was[at..i];
    Regions(was, now, i, at, key);
    NotGreater(was[..i], at, key);
    InsertStable(lo, key, hi);
  }

  lemma Regions(was: seq<Sub>, now: seq<Sub>, i: nat, at: nat, key: Sub)
    requires at <= i < |was| == |now| && key == was[i] && now[at] == key
    requires forall k :: 0 <= k < at ==> now[k] == was[k]
    requires forall k :: at < k <= i ==> now[k] == was[k - 1]
    ensures was[..i] == was[..at] + was[at..i]
    ensures was[..i + 1] == was[..at] + was[at..i] + [key]
    ensures now[..i + 1] == was[..at] + [key] + was[at..i]
  {}

  lemma NotGreater(front: seq<Sub>, at: nat, key: Sub)
    requires Sorted(front) && at <= |front| && (at > 0 ==> front[at - 1].msgId <= key.msgId)
    ensures forall k :: 0 <= k < at ==> front[k].msgId <= key.msgId
  {}

  /** Where the block of one message id ends. */
  lemma BlockEnd(table: seq<Sub>, id: nat, first: nat) returns (end: nat)
    requires first < |table| && table[first].msgId == id
    ensures first < end <= |table|
    ensures forall k :: first <= k < end ==> table[k].msgId == id
    ensures end < |table| ==> table[end].msgId != id
  {
    end := first + 1;
    while end < |table| && table[end].msgId == id
      invariant first < end <= |table|
      invariant forall k :: first <= k < end ==> table[k].msgId == id
    {
      end := end + 1;
    }
  }

  /** The targets are the endpoints of the block that starts at the leftmost match. */
  lemma TargetBlock(table: seq<Sub>, subs: seq<seq<nat>>, id: nat, first: nat) returns (end: nat)
    requires Sorted(table) && StableArrangement(table, Kept(subs))
    requires first < |table| && table[first].msgId == id
    requires forall k :: 0 <= k < first ==> table[k].msgId < id
    ensures first < end <= |table|
    ensures forall k :: first <= k < end ==> table[k].msgId == id
    ensures end < |table| ==> table[end].msgId != id
    ensures |Targets(subs, id)| == end - first
    ensures forall k :: 0 <= k < end - first ==> Targets(subs, id)[k] == table[first + k].ep
  {
    end := BlockEnd(table, id, first);
    SortedBlock(table, id, first, end);
    assert Targets(subs, id) == Endpoints(table[first..end]);
  }

  /** A delivery is one publish step of the queue it goes to, and of no other; the drop log
      grows by exactly what that queue loses. */
  lemma DeliveryIsPublish(d: Delivery, ep: nat, m: Msg, t: Track)
    requires QueuesFit(d.queues) && ep < |d.queues|
    requires t.items == d.queues[ep][Clamp(m.priority)]
    ensures var p, u := Clamp(m.priority), Next(Clamp(m.priority), t, BusQueues.Publish(m));
            match DeliverTo(d, ep, m)
            case None => u == t && p == HIGH
            case Some(e) =>
              && e.queues == d.queues[ep := d.queues[ep][p := u.items]]
              && u.published == t.published + [m]
              && |e.drops| - |d.drops| == |u.lost| - |t.lost|
              && e.notified == if p == LOW && u.lost != t.lost then d.notified else d.notified + [ep]
  {
    assert d.queues[ep][Clamp(m.priority) := t.items] == d.queues[ep];
    assert d.queues[ep := d.queues[ep]] == d.queues;
  }

  class Bus {
    const table: array<Sub>
    var subCount: nat
    var epCount: nat
    var booted: bool
    var queues: seq<seq<seq<Msg>>>
    var dropCount: nat
    var drops: seq<Drop>
    var notified: seq<nat>

    ghost predicate Valid()
      reads this
    {
      && table.Length == MAX_SUBSCRIPTIONS && subCount <= MAX_SUBSCRIPTIONS
      && epCount == |queues| && QueuesFit(queues)
      && dropCount == |drops| % WORD
    }

    /** The table routes the subscriptions `subs`, and holds them sorted. */
    ghost predicate Routes(subs: seq<seq<nat>>)
      reads this`subCount, this`epCount, table
    {
      && subCount <= table.Length
      && epCount == |subs|
      && Sorted(table[..subCount])
      && StableArrangement(table[..subCount], Kept(subs))
    }

    ghost function State(): Delivery
      reads this
    {
      Delivery(queues, drops, notified)
    }

    constructor ()
      ensures Valid() && !booted && fresh(table) && State() == Delivery([], [], [])
    {
      table := new Sub[MAX_SUBSCRIPTIONS](_ => Sub(0, 0));
      subCount := 0;
      epCount := 0;
      booted := false;
      queues := [];
      dropCount := 0;
      drops := [];
      notified := [];
    }

    /** Appends the entries of one block until the table is full. */
    method AppendEntries(ids: seq<nat>, ep: nat, ghost before: seq<Sub>)
      requires Valid() && table[..subCount] == Capped(before)
      modifies this`subCount, table
      ensures Valid()
      ensures table[..subCount] == Capped(before + Entries(ids, ep))
    {
      ghost var all := Entries(ids, ep);
      assert before + all[..0] == before;
      for s := 0 to |ids|
        invariant Valid()
        invariant table[..subCount] == Capped(before + all[..s])
      {
        CappedStable(before + all[..s], all[s..]);
        assert before + all[..s] + all[s..] == before + all;
        if subCount >= MAX_SUBSCRIPTIONS {
          return;
        }
        assert before + all[..s + 1] == before + all[..s] + [all[s]];
        table[subCount] := Sub(ids[s], ep);
        subCount := subCount + 1;
      }
      assert all[..|ids|] == all;
    }

    method BuildTable(subs: seq<seq<nat>>)
      requires Valid()
      modifies this`subCount, table
      ensures Valid()
      ensures table[..subCount] == Kept(subs)
    {
      subCount := 0;
      for i := 0 to |subs|
        invariant Valid()
        invariant table[..subCount] == Kept(subs[..i])
      {
        AppendEntries(subs[i], i, Flatten(subs[..i]));
        assert subs[..i + 1][..i] == subs[..i];
      }
      assert subs[..|subs|] == subs;
    }

    /** The inner loop: moves entry i into the sorted prefix in front of it. */
    method InsertAt(i: nat)
      requires Valid() && i < subCount && Sorted(table[..i])
      modifies table
      ensures Sorted(table[..i + 1]) && StableArrangement(table[..i + 1], old(table[..i + 1]))
      ensures table[i + 1..] == old(table[i + 1..])
    {
      ghost var was := table[..];
      var key := table[i];
      var j := i - 1;
      while j >= 0 && table[j].msgId > key.msgId
        invariant -1 <= j < i
        invariant forall k :: 0 <= k <= j ==> table[k] == was[k]
        invariant forall k :: j + 2 <= k <= i ==> table[k] == was[k - 1]
        invariant forall k :: j < k < i ==> was[k].msgId > key.msgId
        invariant forall k :: i < k < table.Length ==> table[k] == was[k]
        decreases j
      {
        table[j + 1] := table[j];
        j := j - 1;
      }
      table[j + 1] := key;
      Placed(was, table[..], i, j + 1, key);
      assert table[..][..i + 1] == table[..i + 1] && was[..i + 1] == old(table[..i + 1]);
    }

    /** Insertion sort, in place. */
    method SortTable()
      requires Valid()
      modifies table
      ensures Sorted(table[..subCount])
      ensures StableArrangement(table[..subCount], old(table[..subCount]))
    {
      ghost var was := table[..];
      var i := 1;
      while i < subCount
        invariant 1 <= i && (i <= subCount || subCount == 0)
        invariant i <= subCount ==> Sorted(table[..i]) && StableArrangement(table[..i], was[..i])
        invariant i <= subCount ==> table[i..] == was[i..]
      {
        ghost var before := table[..];
        InsertAt(i);
        assert before[i] == was[i];
        assert before[..i + 1] == before[..i] + [was[i]] && was[..i + 1] == was[..i] + [was[i]];
        StableExtends(before[..i], was[..i], was[i]);
        StableTransitive(table[..i + 1], before[..i + 1], was[..i + 1]);
        assert table[i + 1..] == was[i + 1..];
        i := i + 1;
      }
    }

    /** Idempotent; afterwards the table routes the given subscriptions. */
    method Boot(subs: seq<seq<nat>>)
      requires Valid() && |subs| <= MAX_ENDPOINTS
      modifies this`subCount, this`epCount, this`queues, this`booted, table
      ensures Valid() && booted
      ensures old(booted) ==> unchanged(this) && unchanged(table)
      ensures !old(booted) ==> Routes(subs)
      ensures !old(booted) ==> forall ep, p :: 0 <= ep < |subs| && 0 <= p < 3 ==> queues[ep][p] == []
    {
      if booted {
        return;
      }
      epCount := |subs|;
      queues := seq(|subs|, _ => [[], [], []]);
      BuildTable(subs);
      SortTable();
      booted := true;
    }

    /** Leftmost binary search. */
    method SubFirst(target: nat) returns (found: int)
      requires Valid() && Sorted(table[..subCount])
      ensures -1 <= found < subCount
      ensures found < 0 ==> forall k :: 0 <= k < subCount ==> table[k].msgId != target
      ensures found >= 0 ==> table[found].msgId == target && forall k :: 0 <= k < found ==> table[k].msgId < target
    {
      var lo, hi := 0, subCount - 1;
      found := -1;
      ghost var t := table[..subCount];
      while lo <= hi
        invariant 0 <= lo <= hi + 1 <= subCount
        invariant forall k :: 0 <= k < lo ==> t[k].msgId < target
        invariant forall k :: hi < k < subCount ==> t[k].msgId >= target
        invariant found < 0 ==> forall k :: hi < k < subCount ==> t[k].msgId > target
        invariant found >= 0 ==> found == hi + 1 && found < subCount && t[found].msgId == target
        invariant -1 <= found
        decreases hi - lo
      {
        var mid := lo + (hi - lo) / 2;
        if table[mid].msgId == target {
          found := mid;
          hi := mid - 1;
        } else if table[mid].msgId < target {
          lo := mid + 1;
        } else {
          hi := mid - 1;
        }
      }
    }
  
    /** One copy to one subscriber; false means that the publisher has to wait for room. */
    method DeliverOne(ep: nat, m: Msg) returns (ok: bool)
      requires Valid() && ep < epCount
      modifies this`queues, this`drops, this`dropCount, this`notified
      ensures Valid()
      ensures ok <==> DeliverTo(old(State()), ep, m).Some?
      ensures State() == if ok then DeliverTo(old(State()), ep, m).value else old(State())
    {
      var prio := Clamp(m.priority);
      var items := queues[ep][prio];
      if prio == HIGH {
        if |items| >= Depth(prio) {
          return false;
        }
        StoreIn(ep, prio, OsalQueue.Send(Depth(prio), items, m));
      } else if prio == NORMAL {
        if |items| >= Depth(prio) {
          items := OsalQueue.Receive(items);
          CountDrop(Drop(m.source, ep, prio, m.msgId));
        }
        StoreIn(ep, prio, OsalQueue.Send(Depth(prio), items, m));
      } else if |items| < Depth(prio) {
        StoreIn(ep, prio, OsalQueue.Send(Depth(prio), items, m));
      } else {
        CountDrop(Drop(m.source, ep, prio, m.msgId));
      }
      return true;
    }

    /** The queue with the new message, and the post to its endpoint. */
    method StoreIn(ep: nat, prio: nat, items: seq<Msg>)
      requires ep < |queues| && prio < |queues[ep]|
      modifies this`queues, this`notified
      ensures queues == old(queues)[ep := old(queues)[ep][prio := items]] && notified == old(notified) + [ep]
    {
      queues := queues[ep := queues[ep][prio := items]];
      notified := notified + [ep];
    }

    method CountDrop(drop: Drop)
      requires dropCount == |drops| % WORD
      modifies this`drops, this`dropCount
      ensures drops == old(drops) + [drop] && dropCount == |drops| % WORD
    {
      NextWord(|drops|);
      drops := drops + [drop];
      dropCount := (dropCount + 1) % WORD;
    }

    /** Copies to every subscription entry of the message id, in registration order, after the first `from`.
        If a HIGH queue is full the publisher waits there, with the copies before it delivered, and goes on
        with that copy once it is woken. */
    method Route(m: Msg, from: nat, ghost subs: seq<seq<nat>>) returns (delivered: nat, waiting: bool)
      requires Valid() && Routes(subs) && from <= |Targets(subs, m.msgId)|
      modifies this`queues, this`drops, this`dropCount, this`notified
      ensures Valid() && Routes(subs)
      ensures forall k :: 0 <= k < |Targets(subs, m.msgId)| ==> Targets(subs, m.msgId)[k] < epCount
      ensures var rest := Targets(subs, m.msgId)[from..];
              && delivered <= |rest|
              && DeliverAll(old(State()), rest, delivered, m) == Some(State())
              && (!waiting ==> delivered == |rest|)
              && (waiting ==> delivered < |rest| && DeliverTo(State(), rest[delivered], m).None?)
    {
      ghost var targets := Targets(subs, m.msgId);
      TargetsBelow(subs, m.msgId);
      var first := SubFirst(m.msgId);
      if first < 0 {
        MatchingNone(table[..subCount], m.msgId);
        return 0, false;
      }
      ghost var end := TargetBlock(table[..subCount], subs, m.msgId, first);
      delivered, waiting := CopyBlock(first + from, m, targets[from..]);
    }

    /** The delivery loop over the rest of a block of the table. */
    method CopyBlock(start: nat, m: Msg, ghost rest: seq<nat>) returns (delivered: nat, waiting: bool)
      requires Valid() && start + |rest| <= subCount
      requires forall k :: 0 <= k < |rest| ==> rest[k] < epCount && table[start + k] == Sub(m.msgId, rest[k])
      requires start + |rest| < subCount ==> table[start + |rest|].msgId != m.msgId
      modifies this`queues, this`drops, this`dropCount, this`notified
      ensures Valid() && delivered <= |rest|
      ensures DeliverAll(old(State()), rest, delivered, m) == Some(State())
      ensures !waiting ==> delivered == |rest|
      ensures waiting ==> delivered < |rest| && DeliverTo(State(), rest[delivered], m).None?
    {
      delivered := 0;
      var i := start;
      while i < subCount && table[i].msgId == m.msgId
        invariant i == start + delivered && delivered <= |rest|
        invariant delivered < |rest| ==> table[i] == Sub(m.msgId, rest[delivered])
        invariant Valid() && DeliverAll(old(State()), rest, delivered, m) == Some(State())
        decreases subCount - i
      {
        var ok := DeliverOne(table[i].ep, m);
        if !ok {
          return delivered, true;
        }
        delivered := delivered + 1;
        i := i + 1;
      }
      return delivered, false;
    }

    /** Publishing stamps the source; a block without a handle publishes as 0xFF. */
    method Publish(handle: Option<nat>, m: Msg, ghost subs: seq<seq<nat>>) returns (stamped: Msg, delivered: nat, waiting: bool)
      requires Valid() && Routes(subs)
      modifies this`queues, this`drops, this`dropCount, this`notified
      ensures Valid() && Routes(subs)
      ensures stamped == m.(source := if handle.Some? then handle.value else 0xFF)
      ensures forall k :: 0 <= k < |Targets(subs, m.msgId)| ==> Targets(subs, m.msgId)[k] < epCount
      ensures var targets := Targets(subs, m.msgId);
              && delivered <= |targets|
              && DeliverAll(old(State()), targets, delivered, stamped) == Some(State())
              && (!waiting ==> delivered == |targets|)
              && (waiting ==> delivered < |targets| && DeliverTo(State(), targets[delivered], stamped).None?)
    {
      stamped := m.(source := if handle.Some? then handle.value else 0xFF);
      assert Targets(subs, m.msgId)[0..] == Targets(subs, m.msgId);
      delivered, waiting := Route(stamped, 0, subs);
    }

    method ReceiveEp(ep: nat, prio: nat) returns (m: Option<Msg>)
      requires Valid()
      modifies this`queues
      ensures Valid()
      ensures m.None? <==> ep >= epCount || prio > 2 || old(queues)[ep][prio] == []
      ensures m.None? ==> queues == old(queues)
      ensures m.Some? ==> m.value == old(queues)[ep][prio][0]
                          && queues == old(queues)[ep := old(queues)[ep][prio := OsalQueue.Receive(old(queues)[ep][prio])]]
    {
      if ep >= epCount || prio > 2 || queues[ep][prio] == [] {
        return None;
      }
      m := Some(queues[ep][prio][0]);
      queues := queues[ep := queues[ep][prio := OsalQueue.Receive(queues[ep][prio])]];
    }
  }
}
