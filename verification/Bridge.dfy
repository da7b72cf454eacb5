/** The session machine of the socket bridge (fbs/bridge/fb_bridge.c): eight slots driven by the
    mux task.  Sockets are replaced by what the mux receives from each connection, in order, and by
    the list of what it publishes, sends and closes. */
module Bridge {
  import opened Words
  import opened Wrappers

  const SLOTS: nat := 8
  const NAME_LEN: nat := 32
  const MAX_SUBSCRIPTIONS: nat := 16

  datatype Phase = Free | Identifying | Connected

  datatype Slot = Slot(
    phase: Phase, fd: nat, id: nat, name: seq<nat>, subscriptions: seq<nat>,
    misses: nat, lastBeat: U32, started: U32)

  /** One recv on a connection: a frame, fewer bytes than a header, or the end of the stream. */
  datatype Inbound =
    | Identify(name: seq<nat>)
    | Subscribe(ids: seq<nat>)
    | Message(msg: nat)
    | HealthRsp
    | ErrorFrame
    | Other
    | Runt
    | Hangup

  const TIMEOUT: nat := 1
  const CLOSED_BY_PEER: nat := 0
  const PROTOCOL_ERROR: nat := 3

  datatype Output =
    | PubConnected(id: nat, name: seq<nat>)
    | PubDisconnected(id: nat, reason: nat)
    | PubFault(code: nat)
    | Route(source: nat, msg: nat)
    | SendHealthReq(fd: nat)
    | SendAssign(fd: nat, id: nat)
    | SendError(fd: nat)
    | CloseFd(fd: nat)

  /** The heartbeat interval and the IDENTIFY timeout, in milliseconds. */
  datatype Config = Config(heartbeatMs: U32, identifyMs: U32)

  const FREE_SLOT := Slot(Free, 0, 0, [], [], 0, 0, 0)

  // ---------------------------------------------------------------- one slot

  /** A slot after a step, what the step put out, and whether the receive loop ends. */
  datatype Effect = Effect(slot: Slot, out: seq<Output>, done: bool)

  /** close_slot. */
  function Close(s: Slot, reason: nat): Effect {
    if s.phase == Free then Effect(s, [], true)
    else
      var goodbye := if s.id != 0 then [PubDisconnected(s.id, reason)] else [];
      Effect(FREE_SLOT, goodbye + [CloseFd(s.fd)], true)
  }

  function IdOf(i: nat): nat {
    0x40 + i
  }

  /** The body of the receive loop of mux_process_slot. */
  function Receive(s: Slot, i: nat, now: U32, input: Inbound): Effect {
    match input
    case Identify(name) =>
      if s.phase != Identifying then Effect(s, [], false)
      else
        var kept := if |name| >= NAME_LEN then name[..NAME_LEN - 1] else name;
        Effect(s.(name := kept, id := IdOf(i), phase := Connected, lastBeat := now),
               [SendAssign(s.fd, IdOf(i)), PubConnected(IdOf(i), kept)], false)
    case Subscribe(ids) =>
      Effect(s.(subscriptions := if |ids| > MAX_SUBSCRIPTIONS then ids[..MAX_SUBSCRIPTIONS] else ids), [], false)
    case Message(msg) => Effect(s, [Route(s.id, msg)], false)
    case HealthRsp => Effect(s.(misses := 0), [], false)
    case ErrorFrame => Close(s, PROTOCOL_ERROR)
    case Other => Effect(s, [], false)
    case Runt => Effect(s, [], true)
    case Hangup => Close(s, CLOSED_BY_PEER)
  }

  function Drain(s: Slot, i: nat, now: U32, inbox: seq<Inbound>): Effect
    decreases |inbox|
  {
    if inbox == [] then Effect(s, [], true)
    else
      var first := Receive(s, i, now, inbox[0]);
      if first.done then first
      else
        var rest := Drain(first.slot, i, now, inbox[1..]);
        Effect(rest.slot, first.out + rest.out, true)
  }

  /** A heartbeat is due on this slot. */
  predicate Due(c: Config, s: Slot, now: U32) {
    s.phase == Connected && (now - s.lastBeat) % WORD >= c.heartbeatMs
  }

  predicate IdentifyExpired(c: Config, s: Slot, now: U32) {
    s.phase == Identifying && (now - s.started) % WORD > c.identifyMs
  }

  function Beaten(s: Slot, now: U32): Slot {
    s.(lastBeat := now, misses := s.misses + 1)
  }

  /** mux_process_slot. */
  function Process(c: Config, s: Slot, i: nat, now: U32, inbox: seq<Inbound>): Effect {
    if s.phase == Free then Effect(s, [], true)
    else if IdentifyExpired(c, s, now) then Close(s, TIMEOUT)
    else if Due(c, s, now) then
      var beaten := Beaten(s, now);
      var rest := if beaten.misses >= 3 then Close(beaten, TIMEOUT) else Drain(beaten, i, now, inbox);
      Effect(rest.slot, [SendHealthReq(s.fd)] + rest.out, true)
    else Drain(s, i, now, inbox)
  }

  ghost predicate SlotInv(s: Slot, i: nat) {
    match s.phase
    case Free => s == FREE_SLOT
    case Identifying => s.id == 0 && s.misses == 0
    case Connected => s.id == IdOf(i) && s.misses <= 2
  }

  // ---------------------------------------------------------------- lifecycle messages

  /** The state a subscriber believes a block to be in; Broken after a message that does not follow. */
  datatype Life = Down | Up | Broken

  function Heard(life: Life, o: Output, id: nat): Life {
    match o
    case PubConnected(who, _) => if who != id then life else if life == Down then Up else Broken
    case PubDisconnected(who, _) => if who != id then life else if life == Up then Down else Broken
    case _ => life
  }

  function LifeAfter(life: Life, out: seq<Output>, id: nat): Life
    decreases |out|
  {
    if out == [] then life else LifeAfter(Heard(life, out[0], id), out[1..], id)
  }

  lemma {:induction false} LifeConcat(life: Life, a: seq<Output>, b: seq<Output>, id: nat)
    ensures LifeAfter(life, a + b, id) == LifeAfter(LifeAfter(life, a, id), b, id)
    decreases |a|
  {
    if a == [] {
      assert a + b == b;
    } else {
      assert (a + b)[1..] == a[1..] + b;
      LifeConcat(Heard(life, a[0], id), a[1..], b, id);
    }
  }

  lemma LifeOne(life: Life, o: Output, id: nat)
    ensures LifeAfter(life, [o], id) == Heard(life, o, id)
  {
    assert [o][1..] == [];
  }

  lemma LifeTwo(life: Life, a: Output, b: Output, id: nat)
    ensures LifeAfter(life, [a, b], id) == Heard(Heard(life, a, id), b, id)
  {
    assert [a] + [b] == [a, b];
    LifeConcat(life, [a], [b], id);
    LifeOne(life, a, id);
    LifeOne(Heard(life, a, id), b, id);
  }

  function LifeOf(s: Slot): Life {
    if s.phase == Connected then Up else Down
  }

  /** What slot i put out speaks of block 0x40 + i only and says what became of it. */
  ghost predicate Speaks(before: Slot, after: Slot, i: nat, out: seq<Output>) {
    && SlotInv(after, i)
    && LifeAfter(LifeOf(before), out, IdOf(i)) == LifeOf(after)
    && Own(out, i)
  }

  ghost predicate Own(out: seq<Output>, i: nat) {
    forall o :: o in out && (o.PubConnected? || o.PubDisconnected?) ==> o.id == IdOf(i)
  }

  lemma SpeaksBoth(a: Slot, b: Slot, c: Slot, i: nat, first: seq<Output>, second: seq<Output>)
    requires Speaks(a, b, i, first) && Speaks(b, c, i, second)
    ensures Speaks(a, c, i, first + second)
  {
    LifeConcat(LifeOf(a), first, second, IdOf(i));
  }

  lemma CloseSpeaks(s: Slot, i: nat, reason: nat)
    requires s.phase != Free && (s.phase == Connected ==> s.id == IdOf(i)) && (s.phase == Identifying ==> s.id == 0)
    ensures Speaks(s, Close(s, reason).slot, i, Close(s, reason).out)
  {
    if s.id != 0 {
      assert Close(s, reason).out == [PubDisconnected(s.id, reason), CloseFd(s.fd)];
      LifeTwo(LifeOf(s), PubDisconnected(s.id, reason), CloseFd(s.fd), IdOf(i));
    } else {
      assert Close(s, reason).out == [CloseFd(s.fd)];
      LifeOne(LifeOf(s), CloseFd(s.fd), IdOf(i));
    }
  }

  lemma ReceiveSpeaks(s: Slot, i: nat, now: U32, input: Inbound)
    requires SlotInv(s, i) && s.phase != Free
    ensures var e := Receive(s, i, now, input); Speaks(s, e.slot, i, e.out) && (!e.done ==> e.slot.phase != Free)
  {
    match input
    case Identify(name) =>
      if s.phase == Identifying {
        var kept := Receive(s, i, now, input).slot.name;
        LifeTwo(LifeOf(s), SendAssign(s.fd, IdOf(i)), PubConnected(IdOf(i), kept), IdOf(i));
      }
    case Message(msg) => LifeOne(LifeOf(s), Route(s.id, msg), IdOf(i));
    case ErrorFrame => CloseSpeaks(s, i, PROTOCOL_ERROR);
    case Hangup => CloseSpeaks(s, i, CLOSED_BY_PEER);
    case _ =>
  }

  lemma {:induction false} DrainSpeaks(s: Slot, i: nat, now: U32, inbox: seq<Inbound>)
    requires SlotInv(s, i) && s.phase != Free
    ensures var e := Drain(s, i, now, inbox); Speaks(s, e.slot, i, e.out)
    decreases |inbox|
  {
    if inbox != [] {
      var first := Receive(s, i, now, inbox[0]);
      ReceiveSpeaks(s, i, now, inbox[0]);
      if !first.done {
        DrainSpeaks(first.slot, i, now, inbox[1..]);
        var rest := Drain(first.slot, i, now, inbox[1..]);
        SpeaksBoth(s, first.slot, rest.slot, i, first.out, rest.out);
      }
    }
  }

  /** One visit of the mux keeps the slot's invariant and reports its connection state truthfully. */
  lemma ProcessSpeaks(c: Config, s: Slot, i: nat, now: U32, inbox: seq<Inbound>)
    requires SlotInv(s, i)
    ensures var e := Process(c, s, i, now, inbox); Speaks(s, e.slot, i, e.out)
  {
    if s.phase == Free {
    } else if IdentifyExpired(c, s, now) {
      CloseSpeaks(s, i, TIMEOUT);
    } else if Due(c, s, now) {
      var beaten, request := Beaten(s, now), [SendHealthReq(s.fd)];
      var rest := if beaten.misses >= 3 then Close(beaten, TIMEOUT) else Drain(beaten, i, now, inbox);
      if beaten.misses >= 3 {
        CloseSpeaks(beaten, i, TIMEOUT);
      } else {
        DrainSpeaks(beaten, i, now, inbox);
      }
      LifeOne(LifeOf(s), request[0], IdOf(i));
      LifeConcat(LifeOf(s), request, rest.out, IdOf(i));
    } else {
      DrainSpeaks(s, i, now, inbox);
    }
  }

  // ---------------------------------------------------------------- missed heartbeats

  /** One visit of the mux to a slot. */
  datatype Visit = Visit(now: U32, inbox: seq<Inbound>)

  /** The receive loop reaches a HEALTH_RSP. */
  predicate Answers(inbox: seq<Inbound>)
    decreases |inbox|
  {
    inbox != [] && !inbox[0].ErrorFrame? && !inbox[0].Runt? && !inbox[0].Hangup?
    && (inbox[0].HealthRsp? || Answers(inbox[1..]))
  }

  predicate TimedOut(out: seq<Output>) {
    exists o :: o in out && o.PubDisconnected? && o.reason == TIMEOUT
  }

  /** The slot after some visits. */
  function Session(c: Config, s: Slot, i: nat, visits: seq<Visit>): Slot {
    if visits == [] then s
    else
      var last := visits[|visits| - 1];
      Process(c, Session(c, s, i, visits[..|visits| - 1]), i, last.now, last.inbox).slot
  }

  /** The heartbeats sent since the last HEALTH_RSP was drained, or since the first visit. */
  function Unanswered(c: Config, s: Slot, i: nat, visits: seq<Visit>): nat {
    if visits == [] then 0
    else
      var before, last := visits[..|visits| - 1], visits[|visits| - 1];
      if Answers(last.inbox) then 0
      else Unanswered(c, s, i, before) + (if Due(c, Session(c, s, i, before), last.now) then 1 else 0)
  }

  lemma {:induction false} DrainConnected(s: Slot, i: nat, now: U32, inbox: seq<Inbound>)
    requires s.phase == Connected
    ensures var e := Drain(s, i, now, inbox);
            && !TimedOut(e.out)
            && e.slot.phase != Identifying
            && (e.slot.phase == Connected ==>
                  e.slot.lastBeat == s.lastBeat && e.slot.misses == if Answers(inbox) then 0 else s.misses)
    decreases |inbox|
  {
    if inbox != [] {
      var first := Receive(s, i, now, inbox[0]);
      if !first.done {
        DrainConnected(first.slot, i, now, inbox[1..]);
        if inbox[0].HealthRsp? {
          AnsweredOnce(first.slot, i, now, inbox[1..]);
        }
      }
    }
  }

  /** A slot without misses has none after draining. */
  lemma {:induction false} AnsweredOnce(s: Slot, i: nat, now: U32, inbox: seq<Inbound>)
    requires s.phase == Connected && s.misses == 0
    ensures var e := Drain(s, i, now, inbox); e.slot.phase == Connected ==> e.slot.misses == 0
    decreases |inbox|
  {
    if inbox != [] {
      var first := Receive(s, i, now, inbox[0]);
      if !first.done {
        AnsweredOnce(first.slot, i, now, inbox[1..]);
      }
    }
  }

  /** A session that has just begun. */
  ghost predicate Fresh(s: Slot, i: nat) {
    s.phase == Connected && s.id == IdOf(i) && s.misses == 0
  }

  lemma ProcessConnected(c: Config, s: Slot, i: nat, v: Visit)
    requires s.phase == Connected && s.id == IdOf(i) && s.misses <= 2
    ensures var e := Process(c, s, i, v.now, v.inbox);
            && TimedOut(e.out) == (Due(c, s, v.now) && s.misses == 2)
            && e.slot.phase != Identifying
            && (e.slot.phase == Connected ==>
                  !TimedOut(e.out) && e.slot.id == s.id
                  && e.slot.misses == if Answers(v.inbox) then 0 else s.misses + if Due(c, s, v.now) then 1 else 0)
  {
    var e := Process(c, s, i, v.now, v.inbox);
    ProcessSpeaks(c, s, i, v.now, v.inbox);
    if Due(c, s, v.now) {
      var beaten := Beaten(s, v.now);
      if beaten.misses >= 3 {
        var bye := PubDisconnected(s.id, TIMEOUT);
        assert Close(beaten, TIMEOUT).out == [bye, CloseFd(s.fd)];
        assert bye in e.out && bye.reason == TIMEOUT;
      } else {
        DrainConnected(beaten, i, v.now, v.inbox);
        var rest := Drain(beaten, i, v.now, v.inbox);
        assert e.out == [SendHealthReq(s.fd)] + rest.out;
      }
    } else {
      DrainConnected(s, i, v.now, v.inbox);
    }
  }

  /** While a session lives, its miss counter is the number of unanswered heartbeats, at most two. */
  lemma {:induction false} MissesCounted(c: Config, s: Slot, i: nat, visits: seq<Visit>)
    requires Fresh(s, i)
    ensures var t := Session(c, s, i, visits);
            && t.phase != Identifying
            && (t.phase == Connected ==> t.id == IdOf(i) && t.misses == Unanswered(c, s, i, visits) <= 2)
  {
    if visits != [] {
      var before, last := visits[..|visits| - 1], visits[|visits| - 1];
      MissesCounted(c, s, i, before);
      var t := Session(c, s, i, before);
      if t.phase == Connected {
        ProcessConnected(c, t, i, last);
      }
    }
  }

  /** A live session is closed for missed heartbeats exactly when a heartbeat falls due after two
      unanswered ones: the third request goes out, and the connection closes before it can be answered. */
  lemma ThirdHeartbeatIff(c: Config, s: Slot, i: nat, visits: seq<Visit>, v: Visit)
    requires Fresh(s, i) && Session(c, s, i, visits).phase == Connected
    ensures var t := Session(c, s, i, visits);
            TimedOut(Process(c, t, i, v.now, v.inbox).out) <==> Due(c, t, v.now) && Unanswered(c, s, i, visits) == 2
  {
    MissesCounted(c, s, i, visits);
    ProcessConnected(c, Session(c, s, i, visits), i, v);
  }

  /** The documented third miss does not wait for an answer: with heartbeats every 5000 ms, a peer whose HEALTH_RSP
      has arrived by the time of the third one is closed without its being read. */
  lemma AnswerUnread(s: Slot, i: nat)
    requires Fresh(s, i) && s.lastBeat == 0
    ensures var c := Config(5000, 5000);
            var visits := [Visit(5000, []), Visit(10000, []), Visit(15000, [HealthRsp])];
            && Requests(c, s, i, visits) == 3 && Session(c, s, i, visits) == FREE_SLOT
            && TimedOut(Process(c, Session(c, s, i, visits[..2]), i, 15000, [HealthRsp]).out)
  {
    var c := Config(5000, 5000);
    var v0, v1 := Visit(5000, []), Visit(10000, []);
    BeatAfter(c, s, i, [], 5000);
    BeatAfter(c, s, i, [v0], 10000);
    LastBeatAfter(c, s, i, [v0, v1], 15000, [HealthRsp]);
    assert [] + [v0] == [v0] && [v0] + [v1] == [v0, v1];
    assert [v0, v1] + [Visit(15000, [HealthRsp])] == [v0, v1, Visit(15000, [HealthRsp])];
    assert [v0, v1, Visit(15000, [HealthRsp])][..2] == [v0, v1];
  }

  /** A visit with a heartbeat due and nothing received. */
  lemma BeatAfter(c: Config, s: Slot, i: nat, visits: seq<Visit>, now: U32)
    requires var t := Session(c, s, i, visits); Due(c, t, now) && t.misses < 2
    ensures Session(c, s, i, visits + [Visit(now, [])]) == Beaten(Session(c, s, i, visits), now)
    ensures Requests(c, s, i, visits + [Visit(now, [])]) == Requests(c, s, i, visits) + 1
  {
    QuietBeat(c, Session(c, s, i, visits), i, now);
    SessionStep(c, s, i, visits, Visit(now, []));
  }

  /** The third heartbeat of a session without an answer. */
  lemma LastBeatAfter(c: Config, s: Slot, i: nat, visits: seq<Visit>, now: U32, inbox: seq<Inbound>)
    requires var t := Session(c, s, i, visits); Due(c, t, now) && t.misses == 2 && t.id == IdOf(i)
    ensures Session(c, s, i, visits + [Visit(now, inbox)]) == FREE_SLOT
    ensures Requests(c, s, i, visits + [Visit(now, inbox)]) == Requests(c, s, i, visits) + 1
    ensures TimedOut(Process(c, Session(c, s, i, visits), i, now, inbox).out)
  {
    LastBeat(c, Session(c, s, i, visits), i, now, inbox);
    SessionStep(c, s, i, visits, Visit(now, inbox));
  }

  lemma QuietBeat(c: Config, s: Slot, i: nat, now: U32)
    requires Due(c, s, now) && s.misses < 2
    ensures var e := Process(c, s, i, now, []); e.slot == Beaten(s, now) && CountRequests(e.out) == 1
  {
    OneRequest(s.fd, []);
    assert CountRequests([]) == 0;
  }

  /** The third heartbeat closes the session whatever has arrived. */
  lemma LastBeat(c: Config, s: Slot, i: nat, now: U32, inbox: seq<Inbound>)
    requires Due(c, s, now) && s.misses == 2 && s.id == IdOf(i)
    ensures var e := Process(c, s, i, now, inbox);
            e.slot == FREE_SLOT && CountRequests(e.out) == 1 && TimedOut(e.out)
  {
    var bye := PubDisconnected(s.id, TIMEOUT);
    OneRequest(s.fd, [bye, CloseFd(s.fd)]);
    NoRequest([bye, CloseFd(s.fd)]);
    ProcessConnected(c, s, i, Visit(now, inbox));
    assert Process(c, s, i, now, inbox).out == [SendHealthReq(s.fd)] + ([bye] + [CloseFd(s.fd)]);
    assert [bye, CloseFd(s.fd)] == [bye] + [CloseFd(s.fd)];
  }

  lemma SessionStep(c: Config, s: Slot, i: nat, visits: seq<Visit>, v: Visit)
    ensures var e := Process(c, Session(c, s, i, visits), i, v.now, v.inbox);
            && Session(c, s, i, visits + [v]) == e.slot
            && Requests(c, s, i, visits + [v]) == Requests(c, s, i, visits) + CountRequests(e.out)
  {
    assert (visits + [v])[..|visits|] == visits;
  }

  lemma OneRequest(fd: nat, rest: seq<Output>)
    ensures CountRequests([SendHealthReq(fd)] + rest) == 1 + CountRequests(rest)
  {
    CountConcat([SendHealthReq(fd)], rest);
    assert [SendHealthReq(fd)][..0] == [];
  }

  lemma {:induction false} NoRequest(out: seq<Output>)
    requires forall k :: 0 <= k < |out| ==> !out[k].SendHealthReq?
    ensures CountRequests(out) == 0
  {
    if out != [] {
      NoRequest(out[..|out| - 1]);
    }
  }

  /** A peer whose HEALTH_RSP is drained before each next heartbeat. */
  ghost predicate Prompt(c: Config, s: Slot, i: nat, visits: seq<Visit>) {
    forall k :: 0 <= k < |visits| && Due(c, Session(c, s, i, visits[..k]), visits[k].now) ==>
                  Unanswered(c, s, i, visits[..k]) == 0
  }

  lemma PromptSurvives(c: Config, s: Slot, i: nat, visits: seq<Visit>, k: nat)
    requires Fresh(s, i) && Prompt(c, s, i, visits) && k < |visits|
    ensures var t := Session(c, s, i, visits[..k]);
            !TimedOut(Process(c, t, i, visits[k].now, visits[k].inbox).out)
  {
    MissesCounted(c, s, i, visits[..k]);
    if Session(c, s, i, visits[..k]).phase == Connected {
      ThirdHeartbeatIff(c, s, i, visits[..k], visits[k]);
    }
  }

  /** The heartbeat requests a session sent. */
  function Requests(c: Config, s: Slot, i: nat, visits: seq<Visit>): nat {
    if visits == [] then 0
    else
      var before, last := visits[..|visits| - 1], visits[|visits| - 1];
      Requests(c, s, i, before)
      + CountRequests(Process(c, Session(c, s, i, before), i, last.now, last.inbox).out)
  }

  function CountRequests(out: seq<Output>): nat {
    if out == [] then 0
    else CountRequests(out[..|out| - 1]) + (if out[|out| - 1].SendHealthReq? then 1 else 0)
  }

  /** A peer that stays connected but never answers. */
  predicate Silent(inbox: seq<Inbound>) {
    forall k :: 0 <= k < |inbox| ==> !inbox[k].HealthRsp? && !inbox[k].ErrorFrame? && !inbox[k].Hangup?
  }

  lemma {:induction false} SilentNeverAnswers(inbox: seq<Inbound>)
    requires Silent(inbox)
    ensures !Answers(inbox)
    decreases |inbox|
  {
    if inbox != [] {
      SilentNeverAnswers(inbox[1..]);
    }
  }

  lemma {:induction false} CountConcat(a: seq<Output>, b: seq<Output>)
    ensures CountRequests(a + b) == CountRequests(a) + CountRequests(b)
  {
    if b == [] {
      assert a + b == a;
    } else {
      assert (a + b)[..|a + b| - 1] == a + b[..|b| - 1];
      CountConcat(a, b[..|b| - 1]);
    }
  }

  lemma {:induction false} SilentDrain(s: Slot, i: nat, now: U32, inbox: seq<Inbound>)
    requires s.phase == Connected && Silent(inbox)
    ensures Drain(s, i, now, inbox).slot.phase == Connected
    ensures CountRequests(Drain(s, i, now, inbox).out) == 0
    decreases |inbox|
  {
    if inbox != [] {
      var first := Receive(s, i, now, inbox[0]);
      if !first.done {
        SilentDrain(first.slot, i, now, inbox[1..]);
        CountConcat(first.out, Drain(first.slot, i, now, inbox[1..]).out);
      }
    }
  }

  lemma SilentProcess(c: Config, s: Slot, i: nat, v: Visit)
    requires s.phase == Connected && s.id == IdOf(i) && s.misses <= 2 && Silent(v.inbox)
    ensures var e := Process(c, s, i, v.now, v.inbox);
            && CountRequests(e.out) == (if Due(c, s, v.now) then 1 else 0)
            && (e.slot.phase == Connected <==> !(Due(c, s, v.now) && s.misses == 2))
            && (e.slot.phase != Connected ==> e.slot == FREE_SLOT)
  {
    ProcessConnected(c, s, i, v);
    if Due(c, s, v.now) {
      var beaten, request := Beaten(s, v.now), [SendHealthReq(s.fd)];
      assert request[..0] == [];
      if beaten.misses >= 3 {
        var bye, shut := PubDisconnected(s.id, TIMEOUT), CloseFd(s.fd);
        CountConcat([bye], [shut]);
        assert [bye][..0] == [] && [shut][..0] == [];
        assert Close(beaten, TIMEOUT).out == [bye] + [shut];
        CountConcat(request, [bye] + [shut]);
      } else {
        SilentDrain(beaten, i, v.now, v.inbox);
        CountConcat(request, Drain(beaten, i, v.now, v.inbox).out);
      }
    } else {
      SilentDrain(s, i, v.now, v.inbox);
    }
  }

  /** A peer that never answers gets at most three heartbeats and is closed exactly at the third. */
  lemma {:induction false} SilentClosedAtThird(c: Config, s: Slot, i: nat, visits: seq<Visit>)
    requires Fresh(s, i)
    requires forall k :: 0 <= k < |visits| ==> Silent(visits[k].inbox)
    ensures Requests(c, s, i, visits) <= 3
    ensures var t := Session(c, s, i, visits);
            if Requests(c, s, i, visits) == 3 then t == FREE_SLOT
            else t.phase == Connected && Unanswered(c, s, i, visits) == Requests(c, s, i, visits)
  {
    if visits != [] {
      var before, last := visits[..|visits| - 1], visits[|visits| - 1];
      SilentClosedAtThird(c, s, i, before);
      var t := Session(c, s, i, before);
      SilentNeverAnswers(last.inbox);
      if t.phase == Connected {
        MissesCounted(c, s, i, before);
        SilentProcess(c, t, i, last);
      }
    }
  }

  // ---------------------------------------------------------------- the pool

  /** The first free slot, or SLOTS. */
  function FirstFree(pool: seq<Slot>): (i: nat)
    ensures i <= |pool| && (i < |pool| ==> pool[i].phase == Free)
    ensures forall j :: 0 <= j < i ==> pool[j].phase != Free
  {
    if pool == [] || pool[0].phase == Free then 0 else 1 + FirstFree(pool[1..])
  }

  /** mux_handle_new_fd. */
  function Accept(pool: seq<Slot>, fd: nat, started: U32): (seq<Slot>, seq<Output>) {
    var i := FirstFree(pool);
    if i == |pool| then (pool, [SendError(fd), CloseFd(fd), PubFault(0)])
    else (pool[i := pool[i].(fd := fd, phase := Identifying, started := started, misses := 0)], [])
  }

  /** The first k slot visits of one mux round. */
  function Visits(c: Config, pool: seq<Slot>, now: U32, inboxes: seq<seq<Inbound>>, k: nat): (r: (seq<Slot>, seq<Output>))
    requires k <= |pool| == |inboxes|
    ensures |r.0| == |pool|
  {
    if k == 0 then (pool, [])
    else
      var before := Visits(c, pool, now, inboxes, k - 1);
      var e := Process(c, before.0[k - 1], k - 1, now, inboxes[k - 1]);
      (before.0[k - 1 := e.slot], before.1 + e.out)
  }

  /** One iteration of bridge_mux: at most one new connection, with its clock reading, then every slot. */
  datatype Round = Round(accepted: Option<(nat, U32)>, now: U32, inboxes: seq<seq<Inbound>>)

  predicate RoundOk(r: Round) {
    |r.inboxes| == SLOTS
  }

  function Iterate(c: Config, pool: seq<Slot>, r: Round): (n: (seq<Slot>, seq<Output>))
    requires |pool| == SLOTS && RoundOk(r)
    ensures |n.0| == SLOTS
  {
    var accepted := if r.accepted.Some? then Accept(pool, r.accepted.value.0, r.accepted.value.1) else (pool, []);
    var visited := Visits(c, accepted.0, r.now, r.inboxes, SLOTS);
    (visited.0, accepted.1 + visited.1)
  }

  function EmptyPool(): (p: seq<Slot>)
    ensures |p| == SLOTS && forall i :: 0 <= i < SLOTS ==> p[i] == FREE_SLOT
  {
    [FREE_SLOT, FREE_SLOT, FREE_SLOT, FREE_SLOT, FREE_SLOT, FREE_SLOT, FREE_SLOT, FREE_SLOT]
  }

  function Run(c: Config, rounds: seq<Round>): (n: (seq<Slot>, seq<Output>))
    requires forall r :: r in rounds ==> RoundOk(r)
    ensures |n.0| == SLOTS
  {
    if rounds == [] then (EmptyPool(), [])
    else
      var before := Run(c, rounds[..|rounds| - 1]);
      var next := Iterate(c, before.0, rounds[|rounds| - 1]);
      (next.0, before.1 + next.1)
  }

  /** The close_slot loop after the mux has been told to stop. */
  function Shut(pool: seq<Slot>, k: nat): (r: (seq<Slot>, seq<Output>))
    requires k <= |pool|
    ensures |r.0| == |pool|
  {
    if k == 0 then (pool, [])
    else
      var before := Shut(pool, k - 1);
      var e := Close(before.0[k - 1], CLOSED_BY_PEER);
      (before.0[k - 1 := e.slot], before.1 + e.out)
  }

  ghost predicate PoolInv(pool: seq<Slot>) {
    |pool| == SLOTS && forall i :: 0 <= i < SLOTS ==> SlotInv(pool[i], i)
  }

  /** What the bridge put out says of each slot what became of it. */
  ghost predicate PoolSpeaks(before: seq<Slot>, after: seq<Slot>, out: seq<Output>)
    requires |before| == |after| == SLOTS
  {
    forall i :: 0 <= i < SLOTS ==> LifeAfter(LifeOf(before[i]), out, IdOf(i)) == LifeOf(after[i])
  }

  lemma {:induction false} OthersSilent(life: Life, out: seq<Output>, i: nat, j: nat)
    requires Own(out, i) && i != j
    ensures LifeAfter(life, out, IdOf(j)) == life
    decreases |out|
  {
    if out != [] {
      assert out[0] in out;
      assert forall o :: o in out[1..] ==> o in out;
      OthersSilent(life, out[1..], i, j);
    }
  }

  /** A step of slot i extends what was said of the whole pool. */
  lemma OneSlotSpeaks(start: seq<Slot>, pool: seq<Slot>, said: seq<Output>, i: nat, slot: Slot, out: seq<Output>)
    requires |start| == |pool| == SLOTS && i < SLOTS
    requires PoolSpeaks(start, pool, said) && PoolInv(pool) && Speaks(pool[i], slot, i, out)
    ensures PoolInv(pool[i := slot]) && PoolSpeaks(start, pool[i := slot], said + out)
  {
    forall j | 0 <= j < SLOTS
      ensures LifeAfter(LifeOf(start[j]), said + out, IdOf(j)) == LifeOf(pool[i := slot][j])
    {
      LifeConcat(LifeOf(start[j]), said, out, IdOf(j));
      if j != i {
        OthersSilent(LifeOf(pool[j]), out, i, j);
      }
    }
  }

  lemma {:induction false} VisitsSpeak(c: Config, pool: seq<Slot>, now: U32, inboxes: seq<seq<Inbound>>, k: nat)
    requires k <= SLOTS == |inboxes| && PoolInv(pool)
    ensures var v := Visits(c, pool, now, inboxes, k); PoolInv(v.0) && PoolSpeaks(pool, v.0, v.1)
  {
    if k > 0 {
      VisitsSpeak(c, pool, now, inboxes, k - 1);
      var before := Visits(c, pool, now, inboxes, k - 1);
      ProcessSpeaks(c, before.0[k - 1], k - 1, now, inboxes[k - 1]);
      var e := Process(c, before.0[k - 1], k - 1, now, inboxes[k - 1]);
      OneSlotSpeaks(pool, before.0, before.1, k - 1, e.slot, e.out);
    }
  }

  lemma AcceptSpeaks(pool: seq<Slot>, fd: nat, started: U32)
    requires PoolInv(pool)
    ensures var a := Accept(pool, fd, started); PoolInv(a.0) && PoolSpeaks(pool, a.0, a.1)
  {
    var a := Accept(pool, fd, started);
    if FirstFree(pool) == SLOTS {
      forall i | 0 <= i < SLOTS
        ensures LifeAfter(LifeOf(pool[i]), a.1, IdOf(i)) == LifeOf(pool[i])
      {
        assert a.1 == [SendError(fd), CloseFd(fd)] + [PubFault(0)];
        LifeConcat(LifeOf(pool[i]), [SendError(fd), CloseFd(fd)], [PubFault(0)], IdOf(i));
        LifeTwo(LifeOf(pool[i]), SendError(fd), CloseFd(fd), IdOf(i));
        LifeOne(LifeOf(pool[i]), PubFault(0), IdOf(i));
      }
    }
  }

  lemma PoolSpeaksBoth(a: seq<Slot>, b: seq<Slot>, c: seq<Slot>, first: seq<Output>, second: seq<Output>)
    requires |a| == |b| == |c| == SLOTS
    requires PoolSpeaks(a, b, first) && PoolSpeaks(b, c, second)
    ensures PoolSpeaks(a, c, first + second)
  {
    forall i | 0 <= i < SLOTS
      ensures LifeAfter(LifeOf(a[i]), first + second, IdOf(i)) == LifeOf(c[i])
    {
      LifeConcat(LifeOf(a[i]), first, second, IdOf(i));
    }
  }

  lemma IterateSpeaks(c: Config, pool: seq<Slot>, r: Round)
    requires PoolInv(pool) && RoundOk(r)
    ensures var n := Iterate(c, pool, r); PoolInv(n.0) && PoolSpeaks(pool, n.0, n.1)
  {
    var accepted := if r.accepted.Some? then Accept(pool, r.accepted.value.0, r.accepted.value.1) else (pool, []);
    if r.accepted.Some? {
      AcceptSpeaks(pool, r.accepted.value.0, r.accepted.value.1);
    }
    VisitsSpeak(c, accepted.0, r.now, r.inboxes, SLOTS);
    var visited := Visits(c, accepted.0, r.now, r.inboxes, SLOTS);
    PoolSpeaksBoth(pool, accepted.0, visited.0, accepted.1, visited.1);
  }

  lemma {:induction false} RunSpeaks(c: Config, rounds: seq<Round>)
    requires forall r :: r in rounds ==> RoundOk(r)
    ensures var n := Run(c, rounds); PoolInv(n.0) && PoolSpeaks(EmptyPool(), n.0, n.1)
  {
    if rounds != [] {
      var before := rounds[..|rounds| - 1];
      RunSpeaks(c, before);
      var was := Run(c, before);
      IterateSpeaks(c, was.0, rounds[|rounds| - 1]);
      var next := Iterate(c, was.0, rounds[|rounds| - 1]);
      PoolSpeaksBoth(EmptyPool(), was.0, next.0, was.1, next.1);
    }
  }

  lemma {:induction false} ShutSpeaks(pool: seq<Slot>, k: nat)
    requires k <= SLOTS && PoolInv(pool)
    ensures var s := Shut(pool, k);
            PoolInv(s.0) && PoolSpeaks(pool, s.0, s.1) && forall i :: 0 <= i < k ==> s.0[i] == FREE_SLOT
  {
    if k > 0 {
      ShutSpeaks(pool, k - 1);
      var before := Shut(pool, k - 1);
      var s := before.0[k - 1];
      if s.phase != Free {
        CloseSpeaks(s, k - 1, CLOSED_BY_PEER);
      }
      OneSlotSpeaks(pool, before.0, before.1, k - 1, Close(s, CLOSED_BY_PEER).slot, Close(s, CLOSED_BY_PEER).out);
    }
  }

  // ---------------------------------------------------------------- lifecycle messages over a run

  /** The lifecycle messages about one block, in order. */
  function Lifecycle(out: seq<Output>, id: nat): seq<Output>
    decreases |out|
  {
    if out == [] then []
    else
      (if (out[0].PubConnected? || out[0].PubDisconnected?) && out[0].id == id then [out[0]] else [])
      + Lifecycle(out[1..], id)
  }

  lemma {:induction false} BrokenStays(out: seq<Output>, id: nat)
    ensures LifeAfter(Broken, out, id) == Broken
    decreases |out|
  {
    if out != [] {
      BrokenStays(out[1..], id);
    }
  }

  /** Messages that are never out of turn alternate, from the one that is due first. */
  lemma {:induction false} TurnsAlternate(life: Life, out: seq<Output>, id: nat, k: nat)
    requires life != Broken && LifeAfter(life, out, id) != Broken && k < |Lifecycle(out, id)|
    ensures Lifecycle(out, id)[k].PubConnected? <==> ((k % 2 == 0) == (life == Down))
    decreases |out|
  {
    var next := Heard(life, out[0], id);
    if next == Broken {
      BrokenStays(out[1..], id);
    } else if (out[0].PubConnected? || out[0].PubDisconnected?) && out[0].id == id {
      if k > 0 {
        TurnsAlternate(next, out[1..], id, k - 1);
      }
    } else {
      assert Lifecycle(out, id) == Lifecycle(out[1..], id);
      TurnsAlternate(next, out[1..], id, k);
    }
  }

  /** Over every run, the lifecycle messages of slot i carry id 0x40 + i and alternate CONNECTED,
      DISCONNECTED; an open one means that the slot is connected under that id. */
  lemma LifecycleAlternates(c: Config, rounds: seq<Round>, i: nat, k: nat)
    requires (forall r :: r in rounds ==> RoundOk(r)) && i < SLOTS
    ensures var n := Run(c, rounds);
            && LifeAfter(Down, n.1, IdOf(i)) == LifeOf(n.0[i])
            && (n.0[i].phase == Connected ==> n.0[i].id == IdOf(i))
            && (k < |Lifecycle(n.1, IdOf(i))| ==> (Lifecycle(n.1, IdOf(i))[k].PubConnected? <==> k % 2 == 0))
  {
    RunSpeaks(c, rounds);
    var n := Run(c, rounds);
    assert LifeOf(EmptyPool()[i]) == Down;
    assert SlotInv(n.0[i], i);
    if k < |Lifecycle(n.1, IdOf(i))| {
      TurnsAlternate(Down, n.1, IdOf(i), k);
    }
  }

  /** Live ids are distinct, and shutting down announces the end of every session. */
  lemma ShutdownEndsAll(c: Config, rounds: seq<Round>, i: nat, j: nat)
    requires (forall r :: r in rounds ==> RoundOk(r)) && i < j < SLOTS
    ensures var n := Run(c, rounds);
            var s := Shut(n.0, SLOTS);
            && (n.0[i].phase == n.0[j].phase == Connected ==> n.0[i].id != n.0[j].id)
            && LifeAfter(Down, n.1 + s.1, IdOf(i)) == Down && s.0 == EmptyPool()
  {
    RunSpeaks(c, rounds);
    var n := Run(c, rounds);
    ShutSpeaks(n.0, SLOTS);
    var s := Shut(n.0, SLOTS);
    assert SlotInv(n.0[i], i) && SlotInv(n.0[j], j);
    assert LifeOf(EmptyPool()[i]) == Down;
    LifeConcat(Down, n.1, s.1, IdOf(i));
  }

  // ---------------------------------------------------------------- heartbeats over a run

  /** A slot that becomes connected starts a fresh session. */
  lemma ConnectsFresh(c: Config, s: Slot, i: nat, v: Visit)
    requires SlotInv(s, i) && s.phase != Connected
    ensures var e := Process(c, s, i, v.now, v.inbox); e.slot.phase == Connected ==> Fresh(e.slot, i)
  {
    if s.phase == Identifying && !IdentifyExpired(c, s, v.now) {
      DrainFresh(s, i, v.now, v.inbox);
    }
  }

  lemma {:induction false} DrainFresh(s: Slot, i: nat, now: U32, inbox: seq<Inbound>)
    requires SlotInv(s, i) && s.phase != Free && s.misses == 0
    ensures var e := Drain(s, i, now, inbox); e.slot.phase == Connected ==> Fresh(e.slot, i)
    decreases |inbox|
  {
    if inbox != [] {
      var first := Receive(s, i, now, inbox[0]);
      if !first.done {
        DrainFresh(first.slot, i, now, inbox[1..]);
      }
    }
  }

  /** Slot i is visited once in a round, and by nobody else. */
  lemma {:induction false} VisitsAt(c: Config, pool: seq<Slot>, now: U32, inboxes: seq<seq<Inbound>>, k: nat, i: nat)
    requires k <= |pool| == |inboxes| && i < |pool|
    ensures Visits(c, pool, now, inboxes, k).0[i] == if i < k then Process(c, pool[i], i, now, inboxes[i]).slot else pool[i]
  {
    if k > 0 {
      VisitsAt(c, pool, now, inboxes, k - 1, i);
    }
  }

  /** The messages about block 0x40 + i are those of slot i's visit. */
  lemma {:induction false} VisitsSay(c: Config, pool: seq<Slot>, now: U32, inboxes: seq<seq<Inbound>>, k: nat, i: nat, reason: nat)
    requires k <= SLOTS == |inboxes| && PoolInv(pool) && i < SLOTS
    ensures PubDisconnected(IdOf(i), reason) in Visits(c, pool, now, inboxes, k).1 <==>
            i < k && PubDisconnected(IdOf(i), reason) in Process(c, pool[i], i, now, inboxes[i]).out
  {
    if k > 0 {
      var before := Visits(c, pool, now, inboxes, k - 1);
      VisitsSay(c, pool, now, inboxes, k - 1, i, reason);
      VisitsAt(c, pool, now, inboxes, k - 1, k - 1);
      assert before.0[k - 1] == pool[k - 1];
      ProcessSpeaks(c, pool[k - 1], k - 1, now, inboxes[k - 1]);
      SaidByBoth(before.1, Process(c, pool[k - 1], k - 1, now, inboxes[k - 1]).out, k - 1, i, reason);
    }
  }

  lemma SaidByBoth(a: seq<Output>, b: seq<Output>, j: nat, i: nat, reason: nat)
    requires Own(b, j)
    ensures PubDisconnected(IdOf(i), reason) in a + b <==>
            PubDisconnected(IdOf(i), reason) in a || (i == j && PubDisconnected(IdOf(i), reason) in b)
  {}

  function VisitOf(r: Round, i: nat): Visit
    requires RoundOk(r) && i < SLOTS
  {
    Visit(r.now, r.inboxes[i])
  }

  /** A round visits a connected slot; accepting a connection does not touch it. */
  lemma IterateConnected(c: Config, pool: seq<Slot>, r: Round, i: nat)
    requires PoolInv(pool) && RoundOk(r) && i < SLOTS && pool[i].phase == Connected
    ensures var v := VisitOf(r, i);
            && Iterate(c, pool, r).0[i] == Process(c, pool[i], i, v.now, v.inbox).slot
            && forall reason :: PubDisconnected(IdOf(i), reason) in Iterate(c, pool, r).1 <==>
                                PubDisconnected(IdOf(i), reason) in Process(c, pool[i], i, v.now, v.inbox).out
  {
    var accepted := if r.accepted.Some? then Accept(pool, r.accepted.value.0, r.accepted.value.1) else (pool, []);
    if r.accepted.Some? {
      AcceptSpeaks(pool, r.accepted.value.0, r.accepted.value.1);
    }
    assert accepted.0[i] == pool[i];
    VisitsAt(c, accepted.0, r.now, r.inboxes, SLOTS, i);
    forall reason
      ensures PubDisconnected(IdOf(i), reason) in Iterate(c, pool, r).1 <==>
              PubDisconnected(IdOf(i), reason) in Process(c, pool[i], i, r.now, r.inboxes[i]).out
    {
      VisitsSay(c, accepted.0, r.now, r.inboxes, SLOTS, i, reason);
    }
  }

  /** A round that connects slot i leaves it fresh. */
  lemma IterateConnects(c: Config, pool: seq<Slot>, r: Round, i: nat)
    requires PoolInv(pool) && RoundOk(r) && i < SLOTS && pool[i].phase != Connected
    ensures Iterate(c, pool, r).0[i].phase == Connected ==> Fresh(Iterate(c, pool, r).0[i], i)
  {
    var accepted := if r.accepted.Some? then Accept(pool, r.accepted.value.0, r.accepted.value.1) else (pool, []);
    if r.accepted.Some? {
      AcceptSpeaks(pool, r.accepted.value.0, r.accepted.value.1);
    }
    VisitsAt(c, accepted.0, r.now, r.inboxes, SLOTS, i);
    ConnectsFresh(c, accepted.0[i], i, VisitOf(r, i));
  }

  predicate RoundsOk(rounds: seq<Round>) {
    forall r :: r in rounds ==> RoundOk(r)
  }

  /** The visits to slot i since its session began. */
  function Since(c: Config, rounds: seq<Round>, i: nat): seq<Visit>
    requires RoundsOk(rounds) && i < SLOTS
  {
    if rounds == [] then []
    else
      var before := rounds[..|rounds| - 1];
      if Run(c, before).0[i].phase != Connected then []
      else Since(c, before, i) + [VisitOf(rounds[|rounds| - 1], i)]
  }

  /** Slot i as it was when its session began. */
  function Origin(c: Config, rounds: seq<Round>, i: nat): Slot
    requires RoundsOk(rounds) && i < SLOTS
  {
    if rounds == [] then FREE_SLOT
    else
      var before := rounds[..|rounds| - 1];
      if Run(c, before).0[i].phase != Connected then Run(c, rounds).0[i] else Origin(c, before, i)
  }

  /** In every run, a connected slot is where its session of visits has brought it, from a fresh start. */
  lemma {:induction false} RunIsSession(c: Config, rounds: seq<Round>, i: nat)
    requires RoundsOk(rounds) && i < SLOTS && Run(c, rounds).0[i].phase == Connected
    ensures var s, visits := Origin(c, rounds, i), Since(c, rounds, i);
            Fresh(s, i) && Run(c, rounds).0[i] == Session(c, s, i, visits)
  {
    var before, last := rounds[..|rounds| - 1], rounds[|rounds| - 1];
    assert RoundsOk(before) && last in rounds;
    RunSpeaks(c, before);
    var pool := Run(c, before).0;
    if pool[i].phase == Connected {
      RunIsSession(c, before, i);
      IterateConnected(c, pool, last, i);
      SessionStep(c, Origin(c, before, i), i, Since(c, before, i), VisitOf(last, i));
    } else {
      IterateConnects(c, pool, last, i);
    }
  }

  /** Over every run: the miss counter of a connected slot is the number of heartbeats of its session that were
      not answered yet, and the next round announces a timeout of it if and only if a heartbeat falls due
      after two of them. */
  lemma HeartbeatsOverRuns(c: Config, rounds: seq<Round>, i: nat, next: Round)
    requires RoundsOk(rounds) && RoundOk(next) && i < SLOTS && Run(c, rounds).0[i].phase == Connected
    ensures var pool, s, visits := Run(c, rounds).0, Origin(c, rounds, i), Since(c, rounds, i);
            && Fresh(s, i)
            && pool[i].misses == Unanswered(c, s, i, visits) <= 2
            && (PubDisconnected(IdOf(i), TIMEOUT) in Iterate(c, pool, next).1 <==>
                Due(c, pool[i], next.now) && Unanswered(c, s, i, visits) == 2)
  {
    var pool, s, visits := Run(c, rounds).0, Origin(c, rounds, i), Since(c, rounds, i);
    var v := VisitOf(next, i);
    RunSpeaks(c, rounds);
    RunIsSession(c, rounds, i);
    MissesCounted(c, s, i, visits);
    ThirdHeartbeatIff(c, s, i, visits, v);
    IterateConnected(c, pool, next, i);
    ProcessSpeaks(c, pool[i], i, v.now, v.inbox);
    TimeoutIsOwn(i, Process(c, pool[i], i, v.now, v.inbox).out);
  }

  lemma TimeoutIsOwn(i: nat, out: seq<Output>)
    requires Own(out, i)
    ensures TimedOut(out) <==> PubDisconnected(IdOf(i), TIMEOUT) in out
  {
    if TimedOut(out) {
      var o :| o in out && o.PubDisconnected? && o.reason == TIMEOUT;
      assert o == PubDisconnected(IdOf(i), TIMEOUT);
    }
  }

  // ---------------------------------------------------------------- the mux task

  class Mux {
    const config: Config
    const pool: array<Slot>

    constructor (config: Config)
      ensures fresh(pool) && this.config == config && pool[..] == EmptyPool()
    {
      this.config := config;
      pool := new Slot[SLOTS](_ => FREE_SLOT);
      new;
      assert pool[..] == EmptyPool();
    }

    /** close_slot. */
    method CloseSlot(i: nat, reason: nat) returns (out: seq<Output>)
      requires i < pool.Length
      modifies pool
      ensures pool[..] == old(pool[..])[i := Close(old(pool[i]), reason).slot] && out == Close(old(pool[i]), reason).out
    {
      out := [];
      if pool[i].phase == Free {
        return;
      }
      if pool[i].id != 0 {
        out := out + [PubDisconnected(pool[i].id, reason)];
      }
      out := out + [CloseFd(pool[i].fd)];
      pool[i] := FREE_SLOT;
    }

    /** find_free_slot. */
    method FindFree() returns (i: nat)
      ensures i == FirstFree(pool[..])
    {
      i := 0;
      while i < pool.Length
        invariant i <= pool.Length
        invariant forall j :: 0 <= j < i ==> pool[j].phase != Free
      {
        if pool[i].phase == Free {
          break;
        }
        i := i + 1;
      }
      FirstFreeIs(pool[..], i);
    }

    /** mux_handle_new_fd. */
    method HandleNewFd(fd: nat, started: U32) returns (out: seq<Output>)
      modifies pool
      ensures (pool[..], out) == Accept(old(pool[..]), fd, started)
    {
      var i := FindFree();
      if i >= pool.Length {
        return [SendError(fd), CloseFd(fd), PubFault(0)];
      }
      pool[i] := pool[i].(fd := fd, phase := Identifying, started := started, misses := 0);
      out := [];
    }

    /** The receive loop: inbox is what recv returns until the connection has nothing more. */
    method DrainSlot(i: nat, now: U32, inbox: seq<Inbound>) returns (out: seq<Output>)
      requires i < pool.Length
      modifies pool
      ensures var e := Drain(old(pool[i]), i, now, inbox);
              pool[..] == old(pool[..])[i := e.slot] && out == e.out
    {
      out := [];
      ghost var all := Drain(pool[i], i, now, inbox);
      ghost var was := pool[..];
      var n := 0;
      while n < |inbox|
        invariant n <= |inbox|
        invariant pool[..] == was[i := pool[i]]
        invariant var rest := Drain(pool[i], i, now, inbox[n..]); all.slot == rest.slot && all.out == out + rest.out
      {
        var e := Receive(pool[i], i, now, inbox[n]);
        DrainStep(pool[i], i, now, inbox, n, out);
        pool[i] := e.slot;
        out := out + e.out;
        n := n + 1;
        if e.done {
          return;
        }
      }
      assert inbox[n..] == [] && out + [] == out;
    }

    /** mux_process_slot. */
    method ProcessSlot(i: nat, now: U32, inbox: seq<Inbound>) returns (out: seq<Output>)
      requires i < pool.Length
      modifies pool
      ensures var e := Process(config, old(pool[i]), i, now, inbox);
              pool[..] == old(pool[..])[i := e.slot] && out == e.out
    {
      out := [];
      if pool[i].phase == Free {
        return;
      }
      if pool[i].phase == Identifying && (now - pool[i].started) % WORD > config.identifyMs {
        out := CloseSlot(i, TIMEOUT);
        return;
      }
      if pool[i].phase == Connected && (now - pool[i].lastBeat) % WORD >= config.heartbeatMs {
        pool[i] := pool[i].(lastBeat := now, misses := pool[i].misses + 1);
        out := [SendHealthReq(pool[i].fd)];
        if pool[i].misses >= 3 {
          var bye := CloseSlot(i, TIMEOUT);
          out := out + bye;
          return;
        }
      }
      var more := DrainSlot(i, now, inbox);
      assert out == [] ==> out + more == more;
      out := out + more;
    }

    /** One iteration of bridge_mux. */
    method Turn(r: Round) returns (out: seq<Output>)
      requires pool.Length == SLOTS && RoundOk(r)
      modifies pool
      ensures (pool[..], out) == Iterate(config, old(pool[..]), r)
    {
      out := [];
      if r.accepted.Some? {
        out := HandleNewFd(r.accepted.value.0, r.accepted.value.1);
      }
      ghost var start, said := pool[..], out;
      for i := 0 to SLOTS
        invariant pool[..] == Visits(config, start, r.now, r.inboxes, i).0
        invariant out == said + Visits(config, start, r.now, r.inboxes, i).1
      {
        VisitMore(config, start, r.now, r.inboxes, i, said);
        var more := ProcessSlot(i, r.now, r.inboxes[i]);
        out := out + more;
      }
    }

    /** The end of bridge_mux: every open slot is closed. */
    method CloseAll() returns (out: seq<Output>)
      requires pool.Length == SLOTS
      modifies pool
      ensures (pool[..], out) == Shut(old(pool[..]), SLOTS)
    {
      out := [];
      for i := 0 to SLOTS
        invariant (pool[..], out) == Shut(old(pool[..]), i)
      {
        var more := CloseSlot(i, CLOSED_BY_PEER);
        out := out + more;
      }
    }
  }

  lemma VisitMore(c: Config, start: seq<Slot>, now: U32, inboxes: seq<seq<Inbound>>, i: nat, said: seq<Output>)
    requires i < |start| == |inboxes|
    ensures var before, after := Visits(c, start, now, inboxes, i), Visits(c, start, now, inboxes, i + 1);
            var e := Process(c, before.0[i], i, now, inboxes[i]);
            after.0 == before.0[i := e.slot] && said + after.1 == (said + before.1) + e.out
  {}

  lemma {:induction false} FirstFreeIs(pool: seq<Slot>, i: nat)
    requires i <= |pool| && (i < |pool| ==> pool[i].phase == Free)
    requires forall j :: 0 <= j < i ==> pool[j].phase != Free
    ensures FirstFree(pool) == i
  {
    if i > 0 {
      FirstFreeIs(pool[1..], i - 1);
    }
  }

  lemma DrainStep(s: Slot, i: nat, now: U32, inbox: seq<Inbound>, n: nat, out: seq<Output>)
    requires n < |inbox|
    ensures var first, all := Receive(s, i, now, inbox[n]), Drain(s, i, now, inbox[n..]);
            if first.done then all.slot == first.slot && out + all.out == out + first.out
            else
              var rest := Drain(first.slot, i, now, inbox[n + 1..]);
              all.slot == rest.slot && out + all.out == (out + first.out) + rest.out
  {
    assert inbox[n..][1..] == inbox[n + 1..];
    var first := Receive(s, i, now, inbox[n]);
    var rest := Drain(first.slot, i, now, inbox[n + 1..]);
    assert out + (first.out + rest.out) == (out + first.out) + rest.out;
  }
}
