/** Overflow policy and conservation of the bus queues (core/src/bus/message_bus.c). */
module BusQueues {
  import opened OsalQueue

  datatype Msg = Msg(msgId: nat, source: nat, priority: nat, body: int)

  const HIGH: nat := 0
  const NORMAL: nat := 1
  const LOW: nat := 2

  function Depth(prio: nat): nat {
    if prio == NORMAL then 32 else 16
  }

  /** Invalid priorities travel as NORMAL. */
  function Clamp(prio: nat): (p: nat)
    ensures p <= 2
  {
    if prio > LOW then NORMAL else prio
  }

  /** What one delivery does to one queue. */
  datatype Outcome =
    | Blocked                                          // HIGH and full: the publisher waits
    | Queued(items: seq<Msg>)
    | Evicted(items: seq<Msg>, oldest: Msg)            // NORMAL and full
    | Refused(items: seq<Msg>)                         // LOW and full

  function Deliver(prio: nat, items: seq<Msg>, m: Msg): Outcome
    requires prio <= 2 && |items| <= Depth(prio)
  {
    if |items| < Depth(prio) then Queued(Send(Depth(prio), items, m))
    else if prio == HIGH then Blocked
    else if prio == NORMAL then Evicted(Send(Depth(prio), Receive(items), m), items[0])
    else Refused(items)
  }

  /** One queue with the history of everything published to it, received from it and lost. */
  datatype Track = Track(items: seq<Msg>, published: seq<Msg>, received: seq<Msg>, lost: seq<Msg>)

  datatype Event = Publish(m: Msg) | Take

  function Empty(): Track {
    Track([], [], [], [])
  }

  /** A blocked publish and a receive on an empty queue change nothing. */
  function Next(prio: nat, t: Track, e: Event): Track
    requires prio <= 2 && |t.items| <= Depth(prio)
  {
    match e
    case Publish(m) =>
      (match Deliver(prio, t.items, m)
       case Blocked => t
       case Queued(items) => t.(items := items, published := t.published + [m])
       case Evicted(items, oldest) => t.(items := items, published := t.published + [m], lost := t.lost + [oldest])
       case Refused(items) => t.(items := items, published := t.published + [m], lost := t.lost + [m]))
    case Take =>
      if t.items == [] then t
      else t.(items := Receive(t.items), received := t.received + [t.items[0]])
  }

  function Run(prio: nat, events: seq<Event>): (t: Track)
    requires prio <= 2
    ensures |t.items| <= Depth(prio)
    decreases |events|
  {
    if events == [] then Empty() else Next(prio, Run(prio, events[..|events| - 1]), events[|events| - 1])
  }

  /** Nothing is invented and nothing vanishes. */
  ghost predicate Conserved(t: Track) {
    multiset(t.published) == multiset(t.received) + multiset(t.items) + multiset(t.lost)
  }

  /** a can be obtained from b by deleting elements. */
  ghost predicate Subsequence(a: seq<Msg>, b: seq<Msg>)
    decreases |b|
  {
    if b == [] then a == []
    else
      || Subsequence(a, b[..|b| - 1])
      || (a != [] && a[|a| - 1] == b[|b| - 1] && Subsequence(a[..|a| - 1], b[..|b| - 1]))
  }

  ghost predicate Suffix(a: seq<Msg>, b: seq<Msg>) {
    |a| <= |b| && a == b[|b| - |a|..]
  }

  /** What holds of every queue after every history. */
  ghost predicate TrackInv(prio: nat, t: Track) {
    && |t.items| <= Depth(prio)
    && Conserved(t)
    && Subsequence(t.received + t.items, t.published)
    && (prio == HIGH ==> t.lost == [] && t.received + t.items == t.published)
    && (prio == NORMAL ==> Suffix(t.items, t.published))
  }

  lemma SubsequenceGrows(a: seq<Msg>, b: seq<Msg>, m: Msg)
    requires Subsequence(a, b)
    ensures Subsequence(a, b + [m])
    ensures Subsequence(a + [m], b + [m])
  {
    assert (b + [m])[..|b|] == b;
    assert (a + [m])[..|a|] == a;
  }

  /** Deleting one more element keeps a subsequence. */
  lemma {:induction false} SubsequenceShrinks(a: seq<Msg>, b: seq<Msg>, k: nat)
    requires Subsequence(a, b) && k < |a|
    ensures Subsequence(a[..k] + a[k + 1..], b)
    decreases |b|
  {
    var less := a[..k] + a[k + 1..];
    var c := b[..|b| - 1];
    if Subsequence(a, c) {
      SubsequenceShrinks(a, c, k);
    } else if k == |a| - 1 {
      assert less == a[..|a| - 1];
    } else {
      SubsequenceShrinks(a[..|a| - 1], c, k);
      assert less[..|less| - 1] == a[..|a| - 1][..k] + a[..|a| - 1][k + 1..];
    }
  }

  lemma EvictOrder(t: Track, m: Msg)
    requires Subsequence(t.received + t.items, t.published) && t.items != []
    ensures Subsequence(t.received + (t.items[1..] + [m]), t.published + [m])
  {
    var flow := t.received + t.items;
    var less := t.received + t.items[1..];
    SubsequenceShrinks(flow, t.published, |t.received|);
    assert flow[..|t.received|] + flow[|t.received| + 1..] == less;
    SubsequenceGrows(less, t.published, m);
    assert less + [m] == t.received + (t.items[1..] + [m]);
  }

  lemma AppendOrder(t: Track, m: Msg)
    requires Subsequence(t.received + t.items, t.published)
    ensures Subsequence(t.received + (t.items + [m]), t.published + [m])
    ensures Subsequence(t.received + t.items, t.published + [m])
  {
    SubsequenceGrows(t.received + t.items, t.published, m);
    assert t.received + t.items + [m] == t.received + (t.items + [m]);
  }

  lemma EvictConserved(t: Track, m: Msg)
    requires Conserved(t) && t.items != []
    ensures Conserved(Track(t.items[1..] + [m], t.published + [m], t.received, t.lost + [t.items[0]]))
  {
    assert t.items == [t.items[0]] + t.items[1..];
  }

  lemma SuffixShifts(items: seq<Msg>, published: seq<Msg>, m: Msg)
    requires Suffix(items, published)
    ensures Suffix(items + [m], published + [m])
    ensures items != [] ==> Suffix(items[1..], published)
  {}

  lemma QueuedKeeps(prio: nat, t: Track, m: Msg)
    requires prio <= 2 && TrackInv(prio, t) && |t.items| < Depth(prio)
    ensures TrackInv(prio, Track(t.items + [m], t.published + [m], t.received, t.lost))
  {
    AppendOrder(t, m);
    assert t.received + t.items + [m] == t.received + (t.items + [m]);
    if prio == NORMAL { SuffixShifts(t.items, t.published, m); }
  }

  lemma EvictedKeeps(t: Track, m: Msg)
    requires TrackInv(NORMAL, t) && |t.items| == Depth(NORMAL)
    ensures TrackInv(NORMAL, Track(t.items[1..] + [m], t.published + [m], t.received, t.lost + [t.items[0]]))
  {
    EvictOrder(t, m);
    EvictConserved(t, m);
    SuffixShifts(t.items, t.published, m);
    SuffixShifts(t.items[1..], t.published, m);
  }

  lemma RefusedKeeps(t: Track, m: Msg)
    requires TrackInv(LOW, t)
    ensures TrackInv(LOW, Track(t.items, t.published + [m], t.received, t.lost + [m]))
  {
    AppendOrder(t, m);
  }

  lemma PublishKeeps(prio: nat, t: Track, m: Msg)
    requires prio <= 2 && TrackInv(prio, t)
    ensures TrackInv(prio, Next(prio, t, Publish(m)))
  {
    if |t.items| < Depth(prio) {
      QueuedKeeps(prio, t, m);
    } else if prio == NORMAL {
      EvictedKeeps(t, m);
    } else if prio == LOW {
      RefusedKeeps(t, m);
    }
  }

  lemma TakeKeeps(prio: nat, t: Track)
    requires prio <= 2 && TrackInv(prio, t)
    ensures TrackInv(prio, Next(prio, t, Take))
  {
    if t.items != [] {
      assert t.items == [t.items[0]] + t.items[1..];
      assert t.received + [t.items[0]] + t.items[1..] == t.received + t.items;
    }
  }

  /** Over every interleaving of publishes and receives: published = received + queued + lost,
      order is kept, HIGH loses nothing, and NORMAL always holds the newest messages. */
  lemma {:induction false} RunInv(prio: nat, events: seq<Event>)
    requires prio <= 2
    ensures TrackInv(prio, Run(prio, events))
    decreases |events|
  {
    if events != [] {
      var front := events[..|events| - 1];
      RunInv(prio, front);
      match events[|events| - 1]
      case Publish(m) => PublishKeeps(prio, Run(prio, front), m);
      case Take => TakeKeeps(prio, Run(prio, front));
    }
  }

  /** A publish to a full queue: HIGH waits, NORMAL ends up with the newest 32, LOW keeps what
      it had.  To a queue with room it appends. */
  lemma FullQueue(prio: nat, events: seq<Event>, m: Msg)
    requires prio <= 2 && |Run(prio, events).items| == Depth(prio)
    ensures var t, u := Run(prio, events), Run(prio, events + [Publish(m)]);
            && (prio == HIGH ==> u == t)
            && (prio == NORMAL ==> |u.items| == 32 && Suffix(u.items, t.published + [m]) && u.lost == t.lost + [t.items[0]])
            && (prio == LOW ==> u.items == t.items && u.lost == t.lost + [m])
  {
    assert (events + [Publish(m)])[..|events|] == events;
    RunInv(prio, events + [Publish(m)]);
  }

  lemma RoomLeft(prio: nat, events: seq<Event>, m: Msg)
    requires prio <= 2 && |Run(prio, events).items| < Depth(prio)
    ensures var t, u := Run(prio, events), Run(prio, events + [Publish(m)]);
            u.items == t.items + [m] && u.lost == t.lost && u.published == t.published + [m]
  {
    assert (events + [Publish(m)])[..|events|] == events;
  }
}
