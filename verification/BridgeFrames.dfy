/** What becomes of the frames that a peer sends (fbs/bridge/fb_bridge.c): which messages reach the bus and under what
    source, what IDENTIFY and SUBSCRIBE leave behind, and when a silent connection is closed. */
module BridgeFrames {
  import opened Words
  import opened Wrappers
  import opened Bridge

  /** A frame that ends the receive loop. */
  predicate Ends(f: Inbound) {
    f.ErrorFrame? || f.Runt? || f.Hangup?
  }

  /** The frames that the receive loop reads and goes on after. */
  function Read(inbox: seq<Inbound>): (r: seq<Inbound>)
    ensures |r| <= |inbox| && r == inbox[..|r|] && (forall k :: 0 <= k < |r| ==> !Ends(r[k]))
    ensures |r| < |inbox| ==> Ends(inbox[|r|])
  {
    if inbox == [] || Ends(inbox[0]) then [] else [inbox[0]] + Read(inbox[1..])
  }

  /** The kinds of output: messages to the bus, the answer to IDENTIFY, the end of a connection, heartbeats, refusals. */
  datatype Class = Bus | Hello | Bye | Beat | Refusal

  function ClassOf(o: Output): Class {
    match o
    case Route(_, _) => Bus
    case SendAssign(_, _) => Hello
    case PubConnected(_, _) => Hello
    case PubDisconnected(_, _) => Bye
    case CloseFd(_) => Bye
    case SendHealthReq(_) => Beat
    case SendError(_) => Refusal
    case PubFault(_) => Refusal
  }

  function One(o: Output, c: Class): seq<Output> {
    if ClassOf(o) == c then [o] else []
  }

  /** The outputs of one kind, in order. */
  function Only(out: seq<Output>, c: Class): seq<Output> {
    if out == [] then [] else One(out[0], c) + Only(out[1..], c)
  }

  lemma {:induction false} OnlyBoth(a: seq<Output>, b: seq<Output>, c: Class)
    ensures Only(a + b, c) == Only(a, c) + Only(b, c)
    decreases |a|
  {
    if a == [] {
      assert a + b == b;
    } else {
      OnlyBoth(a[1..], b, c);
      assert (a + b)[1..] == a[1..] + b;
      Regroup(One(a[0], c), Only(a[1..], c), Only(b, c));
    }
  }

  lemma Regroup(x: seq<Output>, y: seq<Output>, z: seq<Output>)
    ensures x + (y + z) == (x + y) + z
  {}

  lemma OnlyOne(o: Output, c: Class)
    ensures Only([o], c) == One(o, c)
  {
    assert One(o, c) + [] == One(o, c);
  }

  lemma OnlyTwo(a: Output, b: Output, c: Class)
    ensures Only([a, b], c) == One(a, c) + One(b, c)
  {
    assert [a] + [b] == [a, b];
    OnlyBoth([a], [b], c);
    OnlyOne(a, c);
    OnlyOne(b, c);
  }

  // ---------------------------------------------------------------- one frame

  /** What one frame that does not end the loop puts out. */
  function FrameOut(s: Slot, i: nat, f: Inbound): seq<Output> {
    match f
    case Message(msg) => [Route(s.id, msg)]
    case Identify(name) =>
      if s.phase == Identifying then [SendAssign(s.fd, 0x40 + i), PubConnected(0x40 + i, AtMost(name, 31))] else []
    case _ => []
  }

  function AtMost(s: seq<nat>, n: nat): seq<nat> {
    if |s| > n then s[..n] else s
  }

  lemma FrameOnly(s: Slot, i: nat, f: Inbound, c: Class)
    ensures Only(FrameOut(s, i, f), c) ==
            if f.Message? && c == Bus then [Route(s.id, f.msg)]
            else if f.Identify? && s.phase == Identifying && c == Hello then
              [SendAssign(s.fd, 0x40 + i), PubConnected(0x40 + i, AtMost(f.name, 31))]
            else []
  {
    if f.Message? {
      OnlyOne(Route(s.id, f.msg), c);
    } else if f.Identify? && s.phase == Identifying {
      OnlyTwo(SendAssign(s.fd, 0x40 + i), PubConnected(0x40 + i, AtMost(f.name, 31)), c);
    }
  }

  /** The end of a connection: the block, if it was identified, is announced gone. */
  function Parting(s: Slot, reason: nat): seq<Output> {
    (if s.phase == Connected then [PubDisconnected(s.id, reason)] else []) + [CloseFd(s.fd)]
  }

  lemma CloseOnly(s: Slot, i: nat, reason: nat, c: Class)
    requires s.phase != Free && (s.phase == Connected ==> s.id == 0x40 + i) && (s.phase == Identifying ==> s.id == 0)
    ensures Only(Close(s, reason).out, c) == (if c == Bye then Parting(s, reason) else [])
    ensures Close(s, reason).slot == FREE_SLOT
  {
    var gone, shut := PubDisconnected(s.id, reason), CloseFd(s.fd);
    if s.phase == Connected {
      OnlyTwo(gone, shut, c);
      assert Close(s, reason).out == [gone, shut];
    } else {
      OnlyOne(shut, c);
      assert Close(s, reason).out == [shut];
    }
  }

  // ---------------------------------------------------------------- one visit

  /** Each message frame goes to the bus once, in order, from block id, or from 0x40 + i once an IDENTIFY has been read. */
  function Routed(frames: seq<Inbound>, id: nat, i: nat): seq<Output> {
    if frames == [] then []
    else if frames[0].Message? then [Route(id, frames[0].msg)] + Routed(frames[1..], id, i)
    else Routed(frames[1..], if frames[0].Identify? then 0x40 + i else id, i)
  }

  /** The payload of the first IDENTIFY among these frames. */
  function FirstName(frames: seq<Inbound>): Option<seq<nat>> {
    if frames == [] then None
    else if frames[0].Identify? then Some(frames[0].name)
    else FirstName(frames[1..])
  }

  /** The frame behind those read closes the connection. */
  predicate ClosedBy(inbox: seq<Inbound>) {
    |Read(inbox)| < |inbox| && (inbox[|Read(inbox)|].ErrorFrame? || inbox[|Read(inbox)|].Hangup?)
  }

  /** What the receive loop puts out, by kind. */
  function Drained(s: Slot, i: nat, inbox: seq<Inbound>, c: Class): seq<Output> {
    var frames := Read(inbox);
    var name := if s.phase == Identifying then FirstName(frames) else None;
    var identified := s.phase == Connected || name.Some?;
    match c
    case Bus => Routed(frames, if s.phase == Connected then 0x40 + i else 0, i)
    case Hello => if name.Some? then [SendAssign(s.fd, 0x40 + i), PubConnected(0x40 + i, AtMost(name.value, 31))] else []
    case Bye =>
      if !ClosedBy(inbox) then []
      else (if identified then [PubDisconnected(0x40 + i, if inbox[|frames|].ErrorFrame? then 3 else 0)] else []) + [CloseFd(s.fd)]
    case _ => []
  }

  lemma ReadMore(inbox: seq<Inbound>)
    requires inbox != [] && !Ends(inbox[0])
    ensures Read(inbox) == [inbox[0]] + Read(inbox[1..]) && Read(inbox)[1..] == Read(inbox[1..])
    ensures ClosedBy(inbox) == ClosedBy(inbox[1..])
    ensures ClosedBy(inbox) ==> inbox[|Read(inbox)|] == inbox[1..][|Read(inbox[1..])|]
  {
    assert Read(inbox)[1..] == Read(inbox[1..]);
    assert |Read(inbox)| < |inbox| ==> inbox[|Read(inbox)|] == inbox[1..][|Read(inbox[1..])|];
  }

  lemma DrainedMore(s: Slot, next: Slot, i: nat, inbox: seq<Inbound>, c: Class)
    requires SlotInv(s, i) && s.phase != Free && inbox != [] && !Ends(inbox[0]) && next.fd == s.fd
    requires next.phase == if inbox[0].Identify? then Connected else s.phase
    ensures Drained(s, i, inbox, c) == Only(FrameOut(s, i, inbox[0]), c) + Drained(next, i, inbox[1..], c)
  {
    FrameOnly(s, i, inbox[0], c);
    ReadMore(inbox);
    match c
    case Bus =>
    case Hello =>
    case Bye =>
    case _ =>
  }

  lemma DrainedLast(s: Slot, i: nat, now: U32, inbox: seq<Inbound>, c: Class)
    requires SlotInv(s, i) && s.phase != Free && inbox != [] && Ends(inbox[0])
    ensures Only(Receive(s, i, now, inbox[0]).out, c) == Drained(s, i, inbox, c)
  {
    DrainedNothing(s, i, inbox, c);
    if inbox[0].ErrorFrame? {
      CloseOnly(s, i, 3, c);
    } else if inbox[0].Hangup? {
      CloseOnly(s, i, 0, c);
    }
  }

  lemma DrainedNothing(s: Slot, i: nat, inbox: seq<Inbound>, c: Class)
    requires SlotInv(s, i) && s.phase != Free && inbox != [] && Ends(inbox[0])
    ensures Drained(s, i, inbox, c) ==
            if c != Bye || inbox[0].Runt? then [] else Parting(s, if inbox[0].ErrorFrame? then 3 else 0)
  {
    assert Read(inbox) == [];
  }

  lemma DrainNext(s: Slot, i: nat, now: U32, inbox: seq<Inbound>, first: Effect)
    requires SlotInv(s, i) && s.phase != Free && inbox != [] && first == Receive(s, i, now, inbox[0])
    ensures Ends(inbox[0]) ==> Drain(s, i, now, inbox).out == first.out
    ensures !Ends(inbox[0]) ==>
              && SlotInv(first.slot, i) && first.slot.phase == (if inbox[0].Identify? then Connected else s.phase)
              && first.slot.fd == s.fd && first.out == FrameOut(s, i, inbox[0])
              && Drain(s, i, now, inbox).out == first.out + Drain(first.slot, i, now, inbox[1..]).out
  {}

  lemma {:induction false} DrainOnly(s: Slot, i: nat, now: U32, inbox: seq<Inbound>, c: Class)
    requires SlotInv(s, i) && s.phase != Free
    ensures Only(Drain(s, i, now, inbox).out, c) == Drained(s, i, inbox, c)
    decreases |inbox|
  {
    if inbox != [] {
      var first := Receive(s, i, now, inbox[0]);
      DrainNext(s, i, now, inbox, first);
      if Ends(inbox[0]) {
        DrainedLast(s, i, now, inbox, c);
      } else {
        DrainOnly(first.slot, i, now, inbox[1..], c);
        OnlyBoth(first.out, Drain(first.slot, i, now, inbox[1..]).out, c);
        DrainedMore(s, first.slot, i, inbox, c);
      }
    }
  }

  /** The visit reads from the connection: it is not closed for a timeout first. */
  predicate Drains(c: Config, s: Slot, now: U32) {
    s.phase != Free && !IdentifyExpired(c, s, now) && !(Due(c, s, now) && s.misses >= 2)
  }

  /** What a visit puts out, by kind. */
  function Visited(c: Config, s: Slot, i: nat, now: U32, inbox: seq<Inbound>, kind: Class): seq<Output> {
    if kind == Beat then (if Due(c, s, now) then [SendHealthReq(s.fd)] else [])
    else if Drains(c, s, now) then Drained(s, i, inbox, kind)
    else if kind == Bye && s.phase != Free then Parting(s, 1)
    else []
  }

  lemma BeatSays(c: Config, s: Slot, i: nat, now: U32, inbox: seq<Inbound>, kind: Class)
    requires SlotInv(s, i) && Due(c, s, now)
    ensures Only(Process(c, s, i, now, inbox).out, kind) ==
            One(SendHealthReq(s.fd), kind)
            + if s.misses == 2 then (if kind == Bye then Parting(s, 1) else []) else Drained(s, i, inbox, kind)
  {
    var beaten, request := Beaten(s, now), SendHealthReq(s.fd);
    OnlyOne(request, kind);
    if s.misses == 2 {
      CloseOnly(beaten, i, TIMEOUT, kind);
      OnlyBoth([request], Close(beaten, TIMEOUT).out, kind);
    } else {
      DrainOnly(beaten, i, now, inbox, kind);
      OnlyBoth([request], Drain(beaten, i, now, inbox).out, kind);
    }
  }

  /** Every message frame that a visit reads goes to the bus once and in order, from block 0x40 + i if the slot is
      connected by then and from 0 before; the first IDENTIFY is answered with the block's number and announced with
      the first at most 31 bytes of its name; a connection that ends is closed, and an identified one announced gone,
      with the reason; a heartbeat goes out exactly when it is due.  A visit that closes the slot for a timeout reads
      nothing. */
  lemma VisitSays(c: Config, s: Slot, i: nat, now: U32, inbox: seq<Inbound>, kind: Class)
    requires SlotInv(s, i)
    ensures Only(Process(c, s, i, now, inbox).out, kind) == Visited(c, s, i, now, inbox, kind)
  {
    if s.phase == Free {
    } else if IdentifyExpired(c, s, now) {
      CloseOnly(s, i, TIMEOUT, kind);
    } else if Due(c, s, now) {
      BeatSays(c, s, i, now, inbox, kind);
    } else {
      DrainOnly(s, i, now, inbox, kind);
    }
  }

  // ---------------------------------------------------------------- runs of the pool

  /** What the first k slots of a round put out: each its own visit's outputs, in slot order. */
  function SlotsSay(c: Config, pool: seq<Slot>, now: U32, inboxes: seq<seq<Inbound>>, k: nat, kind: Class): seq<Output>
    requires k <= |pool| == |inboxes|
  {
    if k == 0 then []
    else SlotsSay(c, pool, now, inboxes, k - 1, kind) + Visited(c, pool[k - 1], k - 1, now, inboxes[k - 1], kind)
  }

  lemma VisitsNext(c: Config, pool: seq<Slot>, now: U32, inboxes: seq<seq<Inbound>>, k: nat)
    requires 0 < k <= |pool| == |inboxes|
    ensures Visits(c, pool, now, inboxes, k).1 ==
            Visits(c, pool, now, inboxes, k - 1).1 + Process(c, pool[k - 1], k - 1, now, inboxes[k - 1]).out
  {
    VisitsAt(c, pool, now, inboxes, k - 1, k - 1);
  }

  lemma {:induction false} VisitsOnly(c: Config, pool: seq<Slot>, now: U32, inboxes: seq<seq<Inbound>>, k: nat, kind: Class)
    requires k <= SLOTS == |inboxes| && PoolInv(pool)
    ensures Only(Visits(c, pool, now, inboxes, k).1, kind) == SlotsSay(c, pool, now, inboxes, k, kind)
  {
    if k > 0 {
      VisitsOnly(c, pool, now, inboxes, k - 1, kind);
      VisitsNext(c, pool, now, inboxes, k);
      VisitSays(c, pool[k - 1], k - 1, now, inboxes[k - 1], kind);
      OnlyBoth(Visits(c, pool, now, inboxes, k - 1).1, Process(c, pool[k - 1], k - 1, now, inboxes[k - 1]).out, kind);
    }
  }

  /** The pool when the visits of a round begin. */
  function Accepted(pool: seq<Slot>, r: Round): (p: seq<Slot>)
    ensures |p| == |pool|
  {
    if r.accepted.Some? then Accept(pool, r.accepted.value.0, r.accepted.value.1).0 else pool
  }

  /** The messages to the bus, or the answers to IDENTIFY, of a run. */
  function AllSaid(c: Config, rounds: seq<Round>, kind: Class): seq<Output>
    requires RoundsOk(rounds)
  {
    if rounds == [] then []
    else
      var before, last := rounds[..|rounds| - 1], rounds[|rounds| - 1];
      assert last in rounds;
      AllSaid(c, before, kind) + SlotsSay(c, Accepted(Run(c, before).0, last), last.now, last.inboxes, SLOTS, kind)
  }

  lemma IterateOnly(c: Config, pool: seq<Slot>, r: Round, kind: Class)
    requires PoolInv(pool) && RoundOk(r) && kind in {Bus, Hello}
    ensures Only(Iterate(c, pool, r).1, kind) == SlotsSay(c, Accepted(pool, r), r.now, r.inboxes, SLOTS, kind)
  {
    var said := Offered(pool, r);
    if r.accepted.Some? {
      AcceptSpeaks(pool, r.accepted.value.0, r.accepted.value.1);
    }
    OfferedOnly(pool, r, kind);
    VisitsOnly(c, Accepted(pool, r), r.now, r.inboxes, SLOTS, kind);
    OnlyBoth(said, Visits(c, Accepted(pool, r), r.now, r.inboxes, SLOTS).1, kind);
  }

  /** What the offer of a connection puts out. */
  function Offered(pool: seq<Slot>, r: Round): seq<Output> {
    if r.accepted.Some? then Accept(pool, r.accepted.value.0, r.accepted.value.1).1 else []
  }

  lemma OfferedOnly(pool: seq<Slot>, r: Round, kind: Class)
    requires kind in {Bus, Hello}
    ensures Only(Offered(pool, r), kind) == []
  {
    if Offered(pool, r) != [] {
      var fd := r.accepted.value.0;
      assert Offered(pool, r) == [SendError(fd), CloseFd(fd)] + [PubFault(0)];
      OnlyBoth([SendError(fd), CloseFd(fd)], [PubFault(0)], kind);
      OnlyTwo(SendError(fd), CloseFd(fd), kind);
      OnlyOne(PubFault(0), kind);
    }
  }

  /** Over every run of the pool the bus gets exactly the message frames that the visits read, in the order in which
      the mux visits the slots, each under the block of its slot; and likewise for the answers to IDENTIFY. */
  lemma {:induction false} RunSays(c: Config, rounds: seq<Round>, kind: Class)
    requires RoundsOk(rounds) && kind in {Bus, Hello}
    ensures Only(Run(c, rounds).1, kind) == AllSaid(c, rounds, kind)
  {
    if rounds != [] {
      var before, last := rounds[..|rounds| - 1], rounds[|rounds| - 1];
      assert RoundsOk(before) && last in rounds;
      RunSays(c, before, kind);
      RunSpeaks(c, before);
      IterateOnly(c, Run(c, before).0, last, kind);
      OnlyBoth(Run(c, before).1, Iterate(c, Run(c, before).0, last).1, kind);
    }
  }

  // ---------------------------------------------------------------- connections taken and closed

  /** A new connection takes the lowest free slot, i, and changes nothing else; it is refused only if there is none. */
  lemma AcceptTakes(pool: seq<Slot>, fd: nat, started: U32, i: nat)
    requires i <= |pool| && (i < |pool| ==> pool[i].phase == Free) && forall j :: 0 <= j < i ==> pool[j].phase != Free
    ensures var (after, out) := Accept(pool, fd, started);
            && |after| == |pool| && (forall j :: 0 <= j < |pool| && j != i ==> after[j] == pool[j])
            && (i < |pool| ==> out == [] && after[i].phase == Identifying && after[i].fd == fd && after[i].started == started)
            && (i == |pool| ==> out == [SendError(fd), CloseFd(fd), PubFault(0)])
  {
    assert FirstFree(pool) == i;
  }

  /** The ids of the last SUBSCRIBE among these frames, or what was there before. */
  function LastIds(frames: seq<Inbound>, before: seq<nat>): seq<nat> {
    if frames == [] then before
    else
      var last := frames[|frames| - 1];
      if last.Subscribe? then AtMost(last.ids, 16) else LastIds(frames[..|frames| - 1], before)
  }

  lemma {:induction false} LastIdsFront(f: Inbound, rest: seq<Inbound>, before: seq<nat>)
    ensures LastIds([f] + rest, before) == LastIds(rest, if f.Subscribe? then AtMost(f.ids, 16) else before)
    decreases |rest|
  {
    var all := [f] + rest;
    if rest == [] {
      assert all[..0] == [];
    } else {
      assert all[..|all| - 1] == [f] + rest[..|rest| - 1];
      LastIdsFront(f, rest[..|rest| - 1], before);
    }
  }

  predicate Responds(frames: seq<Inbound>) {
    exists k :: 0 <= k < |frames| && frames[k].HealthRsp?
  }

  /** Where the receive loop leaves the slot. */
  ghost predicate DrainedTo(before: Slot, after: Slot, i: nat, now: U32, inbox: seq<Inbound>) {
    var name := FirstName(Read(inbox));
    if ClosedBy(inbox) then after == FREE_SLOT
    else
      && after.fd == before.fd && after.started == before.started
      && after.subscriptions == LastIds(Read(inbox), before.subscriptions)
      && after.misses == (if Responds(Read(inbox)) then 0 else before.misses)
      && if before.phase == Identifying && name.Some? then
           after.phase == Connected && after.id == 0x40 + i && after.name == AtMost(name.value, 31) && after.lastBeat == now
         else
           after.phase == before.phase && after.id == before.id && after.name == before.name && after.lastBeat == before.lastBeat
  }

  lemma RespondsMore(f: Inbound, rest: seq<Inbound>)
    ensures Responds([f] + rest) <==> f.HealthRsp? || Responds(rest)
  {
    var all := [f] + rest;
    if f.HealthRsp? {
      assert all[0].HealthRsp?;
    }
    if k :| 0 <= k < |rest| && rest[k].HealthRsp? {
      assert all[k + 1].HealthRsp?;
    }
  }

  lemma {:induction false} DrainLeaves(s: Slot, i: nat, now: U32, inbox: seq<Inbound>)
    requires s.phase != Free
    ensures DrainedTo(s, Drain(s, i, now, inbox).slot, i, now, inbox)
    decreases |inbox|
  {
    if inbox != [] {
      var f := inbox[0];
      var first := Receive(s, i, now, f);
      if !Ends(f) {
        DrainLeaves(first.slot, i, now, inbox[1..]);
        ReadMore(inbox);
        RespondsMore(f, Read(inbox[1..]));
        LastIdsFront(f, Read(inbox[1..]), s.subscriptions);
      }
    }
  }

  /** A visit that drains leaves the slot free exactly if the peer hung up or sent an error frame, connected if it was
      or an IDENTIFY was read, under the first at most 31 bytes of that name and block 0x40 + i, and subscribed to the
      first at most 16 ids of the last SUBSCRIBE.  The next interval starts with a heartbeat or the IDENTIFY, a heartbeat
      is one more miss, and a HEALTH_RSP clears them.  A visit that does not drain closes the connection. */
  lemma VisitLeaves(c: Config, s: Slot, i: nat, now: U32, inbox: seq<Inbound>)
    requires SlotInv(s, i)
    ensures var after := Process(c, s, i, now, inbox).slot;
            if !Drains(c, s, now) then after == FREE_SLOT
            else if Due(c, s, now) then DrainedTo(s.(misses := s.misses + 1, lastBeat := now), after, i, now, inbox)
            else DrainedTo(s, after, i, now, inbox)
  {
    if Drains(c, s, now) {
      DrainLeaves(if Due(c, s, now) then Beaten(s, now) else s, i, now, inbox);
    }
  }

  function FramesRead(visits: seq<Visit>): seq<Inbound> {
    if visits == [] then [] else FramesRead(visits[..|visits| - 1]) + Read(visits[|visits| - 1].inbox)
  }

  lemma {:induction false} LastIdsBoth(a: seq<Inbound>, b: seq<Inbound>, before: seq<nat>)
    ensures LastIds(a + b, before) == LastIds(b, LastIds(a, before))
    decreases |b|
  {
    if b == [] {
      assert a + b == a;
    } else {
      assert (a + b)[..|a + b| - 1] == a + b[..|b| - 1];
      LastIdsBoth(a, b[..|b| - 1], before);
    }
  }

  /** Over a whole session the connection keeps its descriptor, its number and its name, and the subscriptions are those
      of the last SUBSCRIBE read. */
  lemma {:induction false} SessionKeeps(c: Config, s: Slot, i: nat, visits: seq<Visit>)
    requires Fresh(s, i)
    ensures var t := Session(c, s, i, visits);
            t.phase == Connected ==>
              t.fd == s.fd && t.id == s.id && t.name == s.name && t.subscriptions == LastIds(FramesRead(visits), s.subscriptions)
  {
    if visits != [] && Session(c, s, i, visits).phase == Connected {
      var before, last := visits[..|visits| - 1], visits[|visits| - 1];
      var t := Session(c, s, i, before);
      MissesCounted(c, s, i, before);
      SessionKeeps(c, s, i, before);
      if t.phase == Connected {
        VisitLeaves(c, t, i, last.now, last.inbox);
        LastIdsBoth(FramesRead(before), Read(last.inbox), s.subscriptions);
      }
    }
  }

  // ---------------------------------------------------------------- true time

  lemma ElapsedMs(since: nat, now: nat)
    requires since <= now < since + WORD
    ensures (now % WORD - since % WORD) % WORD == now - since
  {
    var q := now / WORD - since / WORD;
    assert now - since == (now % WORD - since % WORD) + q * WORD;
    if q == 0 {
      assert now % WORD - since % WORD == now - since;
    } else {
      assert q == 1;
    }
  }

  /** In true time, and through the wrap of the clock: a heartbeat is due exactly when the interval has passed since the
      last one, and an unidentified connection is closed exactly when more than its time limit has passed. */
  lemma DueIff(c: Config, s: Slot, since: nat, now: nat)
    requires since <= now < since + WORD
    ensures s.phase == Connected && s.lastBeat == since % WORD ==> (Due(c, s, now % WORD) <==> now - since >= c.heartbeatMs)
    ensures s.phase == Identifying && s.started == since % WORD ==>
              (IdentifyExpired(c, s, now % WORD) <==> now - since > c.identifyMs)
  {
    ElapsedMs(since, now);
  }

  /** A visit at a true time. */
  datatype Look = Look(at: nat, inbox: seq<Inbound>)

  function VisitsOf(looks: seq<Look>): seq<Visit> {
    seq(|looks|, k requires 0 <= k < |looks| => Visit(looks[k].at % WORD, looks[k].inbox))
  }

  /** The peer neither identifies itself nor ends the connection. */
  predicate Anonymous(inbox: seq<Inbound>) {
    FirstName(Read(inbox)).None? && !ClosedBy(inbox)
  }

  /** A connection that never identifies itself is closed at the first visit more than the time limit after it was
      accepted, and lives until then. */
  lemma {:induction false} AnonymousClosedIff(c: Config, s: Slot, i: nat, since: nat, looks: seq<Look>)
    requires SlotInv(s, i) && s.phase == Identifying && s.started == since % WORD
    requires forall k :: 0 <= k < |looks| ==> since <= looks[k].at < since + WORD && Anonymous(looks[k].inbox)
    ensures var t := Session(c, s, i, VisitsOf(looks));
            && (t == FREE_SLOT <==> exists k :: 0 <= k < |looks| && looks[k].at - since > c.identifyMs)
            && (t != FREE_SLOT ==> SlotInv(t, i) && t.phase == Identifying && t.started == s.started && t.fd == s.fd)
  {
    if looks != [] {
      var before, last := looks[..|looks| - 1], looks[|looks| - 1];
      AnonymousClosedIff(c, s, i, since, before);
      SessionNext(c, s, i, looks);
      AnonymousLook(c, Session(c, s, i, VisitsOf(before)), i, since, last);
      assert forall k :: 0 <= k < |before| ==> looks[k] == before[k];
    }
  }

  lemma SessionNext(c: Config, s: Slot, i: nat, looks: seq<Look>)
    requires looks != []
    ensures var before, last := looks[..|looks| - 1], looks[|looks| - 1];
            Session(c, s, i, VisitsOf(looks))
            == Process(c, Session(c, s, i, VisitsOf(before)), i, last.at % WORD, last.inbox).slot
  {
    assert VisitsOf(looks)[..|looks| - 1] == VisitsOf(looks[..|looks| - 1]);
  }

  lemma AnonymousLook(c: Config, s: Slot, i: nat, since: nat, look: Look)
    requires s == FREE_SLOT || (SlotInv(s, i) && s.phase == Identifying && s.started == since % WORD)
    requires since <= look.at < since + WORD && Anonymous(look.inbox)
    ensures var t := Process(c, s, i, look.at % WORD, look.inbox).slot;
            if s == FREE_SLOT || look.at - since > c.identifyMs then t == FREE_SLOT
            else SlotInv(t, i) && t.phase == Identifying && t.started == s.started && t.fd == s.fd
  {
    if s != FREE_SLOT {
      DueIff(c, s, since, look.at);
      VisitLeaves(c, s, i, look.at % WORD, look.inbox);
    }
  }

  /** The true time of the last heartbeat of a session that was connected at since, or that time. */
  function LastBeat(c: Config, since: nat, looks: seq<Look>): nat {
    if looks == [] then since
    else
      var before, at := LastBeat(c, since, looks[..|looks| - 1]), looks[|looks| - 1].at;
      if at >= before + c.heartbeatMs then at else before
  }

  /** Visits come in time order, and never a whole turn of the clock after the last heartbeat. */
  ghost predicate Regular(c: Config, since: nat, looks: seq<Look>) {
    forall k :: 0 <= k < |looks| ==> var last := LastBeat(c, since, looks[..k]); last <= looks[k].at < last + WORD
  }

  /** Over a whole session a heartbeat is sent at exactly the visits that find the interval passed in true time since the
      last one, or since the connection was identified. */
  lemma {:induction false} SessionBeats(c: Config, s: Slot, i: nat, since: nat, looks: seq<Look>, now: nat)
    requires Fresh(s, i) && s.lastBeat == since % WORD && Regular(c, since, looks)
    requires var last := LastBeat(c, since, looks); last <= now < last + WORD
    ensures var t := Session(c, s, i, VisitsOf(looks));
            t.phase == Connected ==>
              && t.lastBeat == LastBeat(c, since, looks) % WORD
              && (Due(c, t, now % WORD) <==> now - LastBeat(c, since, looks) >= c.heartbeatMs)
  {
    var t := Session(c, s, i, VisitsOf(looks));
    if looks != [] {
      var before, last := looks[..|looks| - 1], looks[|looks| - 1];
      assert VisitsOf(looks)[..|looks| - 1] == VisitsOf(before);
      forall k | 0 <= k < |before|
        ensures var b := LastBeat(c, since, before[..k]); b <= before[k].at < b + WORD
      {
        assert before[..k] == looks[..k] && before[k] == looks[k];
      }
      SessionBeats(c, s, i, since, before, last.at);
      var u := Session(c, s, i, VisitsOf(before));
      MissesCounted(c, s, i, VisitsOf(before));
      if t.phase == Connected && u.phase == Connected {
        VisitLeaves(c, u, i, last.at % WORD, last.inbox);
      }
    }
    if t.phase == Connected {
      DueIff(c, t, LastBeat(c, since, looks), now);
    }
  }
}
