/** The Observatory of a host build (core/src/observatory/obs.c) over the POSIX binary stream
    (hal/posix/peripherals/hal_obs_stream_posix.c): events, the overwriting ring, the overflow
    reports and the capture file, as functions on a state.

    The clock is a function from the number of readings so far to a microsecond count.  A stream
    accepts capacity bytes; the first write beyond that stores what fits and fails.
    history, traced and session are kept for stating properties; the program has no such fields. */
module Observatory {
  import opened Words
  import opened Wrappers
  import opened TraceFormat

  const RING_DEPTH: nat := 256

  datatype Transport = Null | Stdout | File

  /** What a caller passes to embediq_obs_emit. */
  datatype Request = Request(eventType: Byte, source: Byte, target: Byte, state: Byte, msgId: U16)

  /** One event that entered the ring; recovery marks the OVERFLOW events made by emit itself. */
  datatype Entry = Entry(event: Event, recovery: bool)

  datatype Stream = Stream(
    open: bool,
    failed: bool,             // the write-error latch
    capacity: nat,
    data: seq<Byte>,          // the bytes of the file opened last
    session: Option<Session>, // the session whose header that file starts with
    traced: seq<Event>)       // the events handed to that file while its latch was clear

  datatype Log = Log(
    history: seq<Entry>,
    ring: seq<Event>,         // oldest first
    sequence: U32,
    total: U32,
    overflow: U32,
    ticks: nat)

  datatype State = State(
    log: Log,
    transport: Transport,
    level: Byte,
    session: Option<Session>,
    stream: Stream)

  type Clock = nat -> U32

  // ---------------------------------------------------------------- families and levels

  datatype Family = System | Message | StateFamily | Resource | Timing | Fault | Function | Ai | Vendor

  function FamilyOf(eventType: Byte): Family {
    if eventType < 0x20 then System
    else if eventType < 0x30 then Message
    else if eventType < 0x40 then StateFamily
    else if eventType < 0x50 then Resource
    else if eventType < 0x60 then Timing
    else if eventType < 0x70 then Fault
    else if eventType >= 0x90 then Vendor
    else if eventType >= 0x80 then Ai
    else Function
  }

  predicate PassesLevel(level: Byte, eventType: Byte) {
    level >= 2
    || var family := FamilyOf(eventType);
       family == Fault || family == System || (level >= 1 && (family == Message || family == StateFamily))
  }

  /** The levels by event type: faults and system events always, messages and states from level 1, the rest from 2. */
  lemma LevelBands(level: Byte, eventType: Byte)
    ensures PassesLevel(level, eventType) <==>
            eventType < 0x20 || 0x60 <= eventType < 0x70 || (level >= 1 && eventType < 0x40) || level >= 2
  {}

  /** The family is the upper half of the event type. */
  lemma FamilyBands(eventType: Byte)
    ensures FamilyOf(eventType) ==
            match eventType / 0x10
            case 0 => System
            case 1 => System
            case 2 => Message
            case 3 => StateFamily
            case 4 => Resource
            case 5 => Timing
            case 6 => Fault
            case 7 => Function
            case 8 => Ai
            case _ => Vendor
  {}

  /** Whether an emit call has any effect. */
  predicate Recorded(o: State, r: Request) {
    o.transport != Null && PassesLevel(o.level, r.eventType)
  }

  // ---------------------------------------------------------------- the ring

  function RingPush(ring: seq<Event>, e: Event): seq<Event>
    requires |ring| <= RING_DEPTH
  {
    (if |ring| == RING_DEPTH then ring[1..] else ring) + [e]
  }

  function Stamp(clock: Clock, log: Log, r: Request): Event {
    Event(r.eventType, r.source, r.target, r.state, r.msgId, clock(log.ticks), log.sequence)
  }

  /** ring_push and the counters that move with it. */
  function Append(log: Log, e: Event, recovery: bool): (r: Log)
    requires |log.ring| <= RING_DEPTH
    ensures |r.ring| <= RING_DEPTH
  {
    var full := |log.ring| == RING_DEPTH;
    Log(log.history + [Entry(e, recovery)],
        RingPush(log.ring, e),
        (log.sequence + 1) % WORD,
        (log.total + 1) % WORD,
        if full && !recovery then (log.overflow + 1) % WORD else log.overflow,
        log.ticks + 1)
  }

  const OVERFLOW_TYPE: Byte := 0x10

  function OverflowReport(dropped: U32): Request {
    Request(OVERFLOW_TYPE, 0xFF, 0xFF, 0, dropped % 0x1_0000)
  }

  /** The report emit makes before the caller's event when drops are pending. */
  function Recover(clock: Clock, log: Log): (r: Log)
    requires |log.ring| <= RING_DEPTH
    ensures |r.ring| <= RING_DEPTH
  {
    if log.overflow > 0 then
      Append(log.(overflow := 0), Stamp(clock, log, OverflowReport(log.overflow)), true)
    else log
  }

  /** The ring part of emit, for an event that is not discarded. */
  function Record(clock: Clock, log: Log, r: Request): (n: Log)
    requires |log.ring| <= RING_DEPTH
    ensures |n.ring| <= RING_DEPTH && n.history != []
  {
    var recovered := Recover(clock, log);
    Append(recovered, Stamp(clock, recovered, r), false)
  }

  // ---------------------------------------------------------------- the stream

  const HAL_FAULT := Request(0x67, 0xD7, 0, 4, 0)

  /** An emit that writes no file. */
  function Quiet(clock: Clock, o: State, r: Request): (n: State)
    requires |o.log.ring| <= RING_DEPTH
    ensures |n.log.ring| <= RING_DEPTH && n == o.(log := n.log)
  {
    if Recorded(o, r) then o.(log := Record(clock, o.log, r)) else o
  }

  predicate Ready(o: State) {
    |o.log.ring| <= RING_DEPTH && (o.transport == File ==> o.stream.open)
  }

  predicate Fits(s: Stream, bytes: seq<Byte>) {
    |s.data| + |bytes| <= s.capacity
  }

  /** The stream after a write of bytes: all of them, or the part that fits and the latch set. */
  function Extend(s: Stream, bytes: seq<Byte>): Stream {
    if Fits(s, bytes) then s.(data := s.data + bytes)
    else
      var part := if |s.data| <= s.capacity then bytes[..s.capacity - |s.data|] else [];
      s.(data := s.data + part, failed := true)
  }

  /** hal_obs_stream_write: a first failure latches and reports one HAL_FAULT event. */
  function Write(clock: Clock, o: State, bytes: seq<Byte>): (r: (State, bool))
    requires Ready(o)
    ensures Ready(r.0)
  {
    if !o.stream.open then (Quiet(clock, o, HAL_FAULT), false)
    else if bytes == [] then (o, true)
    else if o.stream.failed then (o, false)
    else
      var written := o.(stream := Extend(o.stream, bytes));
      if Fits(o.stream, bytes) then (written, true) else (Quiet(clock, written, HAL_FAULT), false)
  }

  /** write_tlv. */
  function WriteTlv(clock: Clock, o: State, kind: nat, payload: seq<Byte>): (r: (State, bool))
    requires Ready(o)
    ensures Ready(r.0)
  {
    var header := Write(clock, o, TlvHeader(kind, |payload|));
    if !header.1 || payload == [] then header else Write(clock, header.0, payload)
  }

  /** An event handed to the file counts as traced until the latch is set. */
  function Trace(s: Stream, e: Event): Stream {
    if s.failed then s else s.(traced := s.traced + [e])
  }

  function Last(log: Log): Event
    requires log.history != []
  {
    log.history[|log.history| - 1].event
  }

  /** embediq_obs_emit. */
  function Emit(clock: Clock, o: State, r: Request): (n: State)
    requires Ready(o)
    ensures Ready(n)
  {
    if !Recorded(o, r) then o
    else
      var log := Record(clock, o.log, r);
      if o.transport == File then
        WriteTlv(clock, o.(log := log, stream := Trace(o.stream, Last(log))), TLV_EVENT, EncodeEvent(Last(log))).0
      else o.(log := log)
  }

  lemma EmitToFile(clock: Clock, o: State, r: Request, log: Log)
    requires Ready(o) && Recorded(o, r) && o.transport == File && log == Record(clock, o.log, r)
    ensures Emit(clock, o, r) ==
            WriteTlv(clock, o.(log := log, stream := Trace(o.stream, Last(log))), TLV_EVENT, EncodeEvent(Last(log))).0
  {}

  /** How the file calls of one capture call end: whether the file can be created, how many bytes it will take,
      whether a flush and whether a close succeed. */
  datatype Luck = Luck(opens: bool, capacity: nat, flushes: bool, closes: bool)

  /** hal_obs_stream_flush. */
  function Flush(clock: Clock, o: State, luck: Luck): (r: State)
    requires Ready(o)
    ensures Ready(r)
  {
    if !o.stream.open then Quiet(clock, o, HAL_FAULT)
    else if o.stream.failed || luck.flushes then o
    else Quiet(clock, o.(stream := o.stream.(failed := true)), HAL_FAULT)
  }

  /** hal_obs_stream_close; with the FILE transport and a failing close it does not return (EndRunsAway). */
  function Close(clock: Clock, o: State, luck: Luck): (r: State)
    requires |o.log.ring| <= RING_DEPTH
    ensures |r.log.ring| <= RING_DEPTH
  {
    if !o.stream.open then o
    else
      var closed := o.(stream := o.stream.(open := false, failed := false));
      if luck.closes then closed else Quiet(clock, closed, HAL_FAULT)
  }

  const NO_STREAM := Stream(false, false, 0, [], None, [])

  /** The file header and the SESSION record. */
  function WritePreamble(clock: Clock, o: State, session: Session): (r: (State, bool))
    requires Ready(o) && |session.buildId| == 16
    ensures Ready(r.0)
  {
    var header := Write(clock, o, FileHeader());
    if header.1 then WriteTlv(clock, header.0, TLV_SESSION, EncodeSession(session)) else header
  }

  /** Whether capture_begin returns at all: see BeginReturnsIff. */
  predicate CanBegin(o: State, luck: Luck) {
    o.transport == File && o.session.Some? ==> luck.opens && (luck.closes || 52 <= luck.capacity)
  }

  /** embediq_obs_capture_begin. */
  function CaptureBegin(clock: Clock, o: State, luck: Luck): (r: (State, bool))
    requires Ready(o) && CanBegin(o, luck)
    requires o.session.Some? ==> |o.session.value.buildId| == 16
    ensures |r.0.log.ring| <= RING_DEPTH
    ensures o.transport != File || o.session.None? || r.1 ==> Ready(r.0)
  {
    if o.session.None? then (o, false)
    else if !luck.opens then (Quiet(clock, o.(stream := NO_STREAM), HAL_FAULT), false)
    else
      var started := o.(stream := Stream(true, false, luck.capacity, [], o.session, []));
      var preamble := WritePreamble(clock, started, o.session.value);
      if preamble.1 then (Flush(clock, preamble.0, luck).(transport := File), true)
      else (Close(clock, preamble.0, luck), false)
  }

  /** Whether capture_end returns: see EndReturnsIff. */
  predicate CanEnd(o: State, luck: Luck) {
    o.transport == File ==> luck.closes
  }

  /** embediq_obs_capture_end. */
  function CaptureEnd(clock: Clock, o: State, luck: Luck): (r: (State, bool))
    requires Ready(o) && CanEnd(o, luck)
    ensures Ready(r.0)
  {
    var end := WriteTlv(clock, o, TLV_STREAM_END, []);
    (Close(clock, Flush(clock, end.0, luck), luck).(transport := Null), end.1)
  }

  // ---------------------------------------------------------------- runs

  datatype Op =
    | DoEmit(request: Request)
    | SetTransport(transport: Transport)
    | SetLevel(level: Byte)
    | SessionBegin(session: Session)
    | DoCaptureBegin(luck: Luck)
    | DoCaptureEnd(luck: Luck)

  /** The calls that leave a state in which emit returns (EmitReturnsIff): the FILE transport needs an open
      stream, a capture begun inside another must get its file and its preamble (BeginRunsAway, BeginStrands), and
      the file of a capture that ends must close (EndRunsAway). */
  predicate Allowed(o: State, op: Op) {
    match op
    case SetTransport(t) => t == File ==> o.stream.open
    case SessionBegin(s) => SessionOk(s)
    case DoCaptureBegin(luck) =>
      && (o.session.Some? ==> SessionOk(o.session.value))
      && (o.transport == File && o.session.Some? ==> luck.opens && 52 <= luck.capacity)
    case DoCaptureEnd(luck) => CanEnd(o, luck)
    case _ => true
  }

  function Apply(clock: Clock, o: State, op: Op): (r: State)
    requires Ready(o) && Allowed(o, op)
  {
    match op
    case DoEmit(r) => Emit(clock, o, r)
    case SetTransport(t) => o.(transport := t)
    case SetLevel(l) => o.(level := l)
    case SessionBegin(s) => o.(session := Some(s))
    case DoCaptureBegin(luck) => CaptureBegin(clock, o, luck).0
    case DoCaptureEnd(luck) => CaptureEnd(clock, o, luck).0
  }

  function Initial(level: Byte): State {
    State(Log([], [], 0, 0, 0, 0), Stdout, level, None, NO_STREAM)
  }

  /** states lists a run: every state follows from the one before by an allowed call. */
  /** A setting takes effect at once and changes nothing else. */
  lemma SettingsTake(clock: Clock, o: State, t: Transport, l: Byte, s: Session)
    requires Ready(o) && (t == File ==> o.stream.open) && SessionOk(s)
    ensures var n := Apply(clock, o, SetTransport(t)); n.transport == t && n.(transport := o.transport) == o
    ensures var n := Apply(clock, o, SetLevel(l)); n.level == l && n.(level := o.level) == o
    ensures var n := Apply(clock, o, SessionBegin(s)); n.session == Some(s) && n.(session := o.session) == o
  {}

  ghost predicate IsRun(clock: Clock, states: seq<State>) {
    && states != []
    && (exists level :: states[0] == Initial(level))
    && (forall i :: 0 <= i < |states| - 1 ==> Follows(clock, states[i], states[i + 1]))
  }

  ghost predicate Follows(clock: Clock, before: State, after: State) {
    Ready(before) && exists op :: Allowed(before, op) && after == Apply(clock, before, op)
  }

  // ---------------------------------------------------------------- the ring invariant

  /** Entry i of the history when callers never stop: from the 258th on, every other entry is a report. */
  predicate IsReport(i: nat) {
    i > RING_DEPTH && i % 2 == 1
  }

  ghost predicate EntryFits(entry: Entry, i: nat) {
    && entry.event.sequence == i % WORD
    && entry.recovery == IsReport(i)
    && (entry.recovery ==>
          entry.event.(timestamp := 0) == Event(OVERFLOW_TYPE, 0xFF, 0xFF, 0, 1, 0, i % WORD))
  }

  function Newest(history: seq<Entry>): (r: seq<Event>)
    ensures |r| == if |history| <= RING_DEPTH then |history| else RING_DEPTH
  {
    var skip := if |history| <= RING_DEPTH then 0 else |history| - RING_DEPTH;
    seq(|history| - skip, i requires 0 <= i < |history| - skip => history[skip + i].event)
  }

  ghost predicate Consistent(log: Log) {
    && log.ring == Newest(log.history)
    && log.sequence == log.total == |log.history| % WORD
    && forall i :: 0 <= i < |log.history| ==> EntryFits(log.history[i], i)
  }

  ghost predicate RingInv(log: Log) {
    && Consistent(log)
    && log.overflow == (if |log.history| > RING_DEPTH then 1 else 0)
    && (|log.history| > RING_DEPTH ==> |log.history| % 2 == 1)
  }

  lemma NewestAppend(history: seq<Entry>, entry: Entry)
    ensures Newest(history + [entry]) == RingPush(Newest(history), entry.event)
  {}

  lemma AppendConsistent(log: Log, e: Event, recovery: bool)
    requires Consistent(log) && EntryFits(Entry(e, recovery), |log.history|)
    ensures Consistent(Append(log, e, recovery))
  {
    NewestAppend(log.history, Entry(e, recovery));
    NextWord(|log.history|);
  }

  lemma RecoverConsistent(clock: Clock, log: Log)
    requires RingInv(log)
    ensures var r := Recover(clock, log);
            && Consistent(r) && r.overflow == 0
            && |r.history| == |log.history| + (if |log.history| > RING_DEPTH then 1 else 0)
  {
    if log.overflow > 0 {
      AppendConsistent(log.(overflow := 0), Stamp(clock, log, OverflowReport(log.overflow)), true);
    }
  }

  lemma RecordKeepsRing(clock: Clock, log: Log, r: Request)
    requires RingInv(log)
    ensures RingInv(Record(clock, log, r))
  {
    RecoverConsistent(clock, log);
    Parity(|log.history|);
    CallerKeepsRing(clock, Recover(clock, log), r);
  }

  lemma Parity(n: nat)
    requires n > RING_DEPTH ==> n % 2 == 1
    ensures var m := if n > RING_DEPTH then n + 1 else n; !IsReport(m) && (m + 1 > RING_DEPTH ==> (m + 1) % 2 == 1)
  {}

  /** The caller's event, behind the report if there was one. */
  lemma CallerKeepsRing(clock: Clock, log: Log, r: Request)
    requires Consistent(log) && log.overflow == 0
    requires !IsReport(|log.history|) && (|log.history| + 1 > RING_DEPTH ==> (|log.history| + 1) % 2 == 1)
    ensures RingInv(Append(log, Stamp(clock, log, r), false))
  {
    AppendConsistent(log, Stamp(clock, log, r), false);
    assert |log.ring| == if |log.history| <= RING_DEPTH then |log.history| else RING_DEPTH;
  }

  lemma RecordExtends(clock: Clock, log: Log, r: Request)
    requires |log.ring| <= RING_DEPTH
    ensures log.history <= Record(clock, log, r).history
  {}

  /** What every call does to the log: keep its invariant and only add to the history. */
  ghost predicate Grows(before: State, after: State) {
    RingInv(before.log) ==> RingInv(after.log) && before.log.history <= after.log.history
  }

  lemma QuietGrows(clock: Clock, o: State, r: Request)
    requires |o.log.ring| <= RING_DEPTH
    ensures Grows(o, Quiet(clock, o, r))
  {
    if Recorded(o, r) && RingInv(o.log) {
      RecordKeepsRing(clock, o.log, r);
      RecordExtends(clock, o.log, r);
    }
  }

  lemma WriteGrows(clock: Clock, o: State, bytes: seq<Byte>)
    requires Ready(o)
    ensures Grows(o, Write(clock, o, bytes).0)
  {
    QuietGrows(clock, o, HAL_FAULT);
    QuietGrows(clock, o.(stream := Extend(o.stream, bytes)), HAL_FAULT);
  }

  lemma TlvGrows(clock: Clock, o: State, kind: nat, payload: seq<Byte>)
    requires Ready(o)
    ensures Grows(o, WriteTlv(clock, o, kind, payload).0)
  {
    WriteGrows(clock, o, TlvHeader(kind, |payload|));
    WriteGrows(clock, Write(clock, o, TlvHeader(kind, |payload|)).0, payload);
  }

  lemma EmitGrows(clock: Clock, o: State, r: Request)
    requires Ready(o)
    ensures Grows(o, Emit(clock, o, r))
  {
    if Recorded(o, r) && RingInv(o.log) {
      RecordKeepsRing(clock, o.log, r);
      RecordExtends(clock, o.log, r);
      var log := Record(clock, o.log, r);
      TlvGrows(clock, o.(log := log, stream := Trace(o.stream, Last(log))), TLV_EVENT, EncodeEvent(Last(log)));
    }
  }

  lemma PreambleGrows(clock: Clock, o: State, session: Session)
    requires Ready(o) && |session.buildId| == 16
    ensures Grows(o, WritePreamble(clock, o, session).0)
  {
    WriteGrows(clock, o, FileHeader());
    TlvGrows(clock, Write(clock, o, FileHeader()).0, TLV_SESSION, EncodeSession(session));
  }

  lemma FlushGrows(clock: Clock, o: State, luck: Luck)
    requires Ready(o)
    ensures Grows(o, Flush(clock, o, luck))
  {
    QuietGrows(clock, o, HAL_FAULT);
    QuietGrows(clock, o.(stream := o.stream.(failed := true)), HAL_FAULT);
  }

  lemma CloseGrows(clock: Clock, o: State, luck: Luck)
    requires |o.log.ring| <= RING_DEPTH
    ensures Grows(o, Close(clock, o, luck))
  {
    QuietGrows(clock, o.(stream := o.stream.(open := false, failed := false)), HAL_FAULT);
  }

  lemma BeginGrows(clock: Clock, o: State, luck: Luck)
    requires Ready(o) && CanBegin(o, luck)
    requires o.session.Some? ==> |o.session.value.buildId| == 16
    ensures Grows(o, CaptureBegin(clock, o, luck).0)
  {
    if o.session.Some? && !luck.opens {
      QuietGrows(clock, o.(stream := NO_STREAM), HAL_FAULT);
    } else if o.session.Some? {
      var started := o.(stream := Stream(true, false, luck.capacity, [], o.session, []));
      PreambleGrows(clock, started, o.session.value);
      FlushGrows(clock, WritePreamble(clock, started, o.session.value).0, luck);
      CloseGrows(clock, WritePreamble(clock, started, o.session.value).0, luck);
    }
  }

  lemma EndGrows(clock: Clock, o: State, luck: Luck)
    requires Ready(o) && CanEnd(o, luck)
    ensures Grows(o, CaptureEnd(clock, o, luck).0)
  {
    var end := WriteTlv(clock, o, TLV_STREAM_END, []).0;
    TlvGrows(clock, o, TLV_STREAM_END, []);
    FlushGrows(clock, end, luck);
    CloseGrows(clock, Flush(clock, end, luck), luck);
  }

  /** Every call keeps the ring invariant. */
  lemma StepGrows(clock: Clock, o: State, op: Op)
    requires Ready(o) && Allowed(o, op)
    ensures Grows(o, Apply(clock, o, op))
  {
    match op
    case DoEmit(r) => EmitGrows(clock, o, r);
    case DoCaptureBegin(luck) => BeginGrows(clock, o, luck);
    case DoCaptureEnd(luck) => EndGrows(clock, o, luck);
    case _ =>
  }

  // ---------------------------------------------------------------- what the reports count

  /** The number of OVERFLOW events ever pushed. */
  function Reports(history: seq<Entry>): nat {
    if history == [] then 0
    else Reports(history[..|history| - 1]) + (if history[|history| - 1].recovery then 1 else 0)
  }

  /** The sum of the drop counts those events carry. */
  function Reported(history: seq<Entry>): nat {
    if history == [] then 0
    else
      var last := history[|history| - 1];
      Reported(history[..|history| - 1]) + (if last.recovery then last.event.msgId else 0)
  }

  lemma {:induction false} ReportCount(history: seq<Entry>)
    requires forall i :: 0 <= i < |history| ==> EntryFits(history[i], i)
    ensures Reports(history) == Reported(history) == if |history| <= 257 then 0 else (|history| - 256) / 2
  {
    if history != [] {
      var last := |history| - 1;
      ReportCount(history[..last]);
      assert EntryFits(history[last], last);
      assert history[last].recovery ==> history[last].event.(timestamp := 0).msgId == 1;
    }
  }

  /** Every event that left the ring is counted by a report, is the pending one, or was pushed out by a report. */
  lemma LossAccounted(log: Log)
    requires RingInv(log)
    ensures log.overflow <= 1
    ensures |log.history| - |log.ring| == Reported(log.history) + log.overflow + Reports(log.history)
  {
    ReportCount(log.history);
  }

  /** The reports cover every lost event only until the first report is itself pushed. */
  lemma ReportsCoverLossIff(log: Log)
    requires RingInv(log)
    ensures |log.history| - |log.ring| == Reported(log.history) + log.overflow <==> |log.history| <= 257
  {
    ReportCount(log.history);
  }

  lemma RingEntry(log: Log, i: nat)
    requires Consistent(log) && i < |log.ring|
    ensures log.ring[i] == log.history[|log.history| - |log.ring| + i].event
  {}

  /** Once full, the ring's entries are alternately reports and caller events. */
  lemma HalfTheRingIsReports(log: Log, i: nat)
    requires RingInv(log) && |log.history| >= 513 && i < RING_DEPTH
    ensures var entry := log.history[|log.history| - RING_DEPTH + i];
            log.ring[i] == entry.event && entry.recovery == (i % 2 == 0)
            && (i % 2 == 0 ==> log.ring[i].eventType == OVERFLOW_TYPE && log.ring[i].msgId == 1)
  {
    var at := |log.history| - RING_DEPTH + i;
    ReportAt(|log.history|, i);
    assert EntryFits(log.history[at], at);
    RingEntry(log, i);
  }

  lemma ReportAt(n: nat, i: nat)
    requires n >= 513 && n % 2 == 1
    ensures IsReport(n - RING_DEPTH + i) == (i % 2 == 0)
  {}

  // ---------------------------------------------------------------- the file invariant

  ghost predicate IsCut(data: seq<Byte>, whole: seq<Byte>) {
    |data| <= |whole| && data == whole[..|data|]
  }

  /** The bytes an open capture has been asked to hold. */
  function Offered(s: Session, traced: seq<Event>): seq<Byte>
    requires |s.buildId| == 16
  {
    Preamble(s) + Body(traced)
  }

  ghost predicate OpenInv(s: Stream)
    requires s.session.Some? && |s.session.value.buildId| == 16
  {
    var offered := Offered(s.session.value, s.traced);
    && 52 <= |s.data| <= s.capacity
    && (if s.failed then IsCut(s.data, offered) else s.data == offered)
  }

  ghost predicate FileInv(s: Stream) {
    match s.session
    case None => !s.open && s.data == []
    case Some(session) =>
      && SessionOk(session)
      && if s.open then OpenInv(s) else IsCut(s.data, Closed(session, s.traced))
  }

  /** What writing bytes to an open stream with a clear latch does to it. */
  ghost predicate Wrote(before: Stream, after: Stream, bytes: seq<Byte>) {
    && after == before.(data := after.data, failed := after.failed)
    && after.failed == !Fits(before, bytes)
    && |before.data| <= |after.data| <= before.capacity
    && if after.failed then IsCut(after.data, before.data + bytes) else after.data == before.data + bytes
  }

  lemma WriteWrote(clock: Clock, o: State, bytes: seq<Byte>)
    requires Ready(o) && o.stream.open && !o.stream.failed && |o.stream.data| <= o.stream.capacity
    ensures var (n, ok) := Write(clock, o, bytes);
            Wrote(o.stream, n.stream, bytes) && ok == !n.stream.failed
            && n.transport == o.transport && n.session == o.session && n.level == o.level
  {
    if bytes == [] {
      assert o.stream.data + bytes == o.stream.data;
    }
  }

  lemma WroteBoth(a: Stream, b: Stream, c: Stream, first: seq<Byte>, second: seq<Byte>)
    requires Wrote(a, b, first)
    requires if b.failed then c == b else Wrote(b, c, second)
    ensures Wrote(a, c, first + second)
  {
    assert a.data + (first + second) == (a.data + first) + second;
    if b.failed {
      assert b.data == (a.data + first)[..|b.data|] == (a.data + (first + second))[..|b.data|];
    }
  }

  /** A record reaches an open stream whole, or its first bytes do and the latch is set. */
  lemma TlvWrote(clock: Clock, o: State, kind: nat, payload: seq<Byte>)
    requires Ready(o) && o.stream.open && !o.stream.failed && |o.stream.data| <= o.stream.capacity
    ensures var (n, ok) := WriteTlv(clock, o, kind, payload);
            Wrote(o.stream, n.stream, TlvHeader(kind, |payload|) + payload) && ok == !n.stream.failed
            && n.transport == o.transport && n.session == o.session && n.level == o.level
  {
    var header := TlvHeader(kind, |payload|);
    var (first, ok) := Write(clock, o, header);
    WriteWrote(clock, o, header);
    if ok {
      WriteWrote(clock, first, payload);
      assert payload == [] ==> Write(clock, first, payload) == (first, true);
    }
    WroteBoth(o.stream, first.stream, WriteTlv(clock, o, kind, payload).0.stream, header, payload);
  }

  /** With the latch set, or without a stream, an emit only reaches the ring: a failing write reports once. */
  lemma LatchedEmit(clock: Clock, o: State, r: Request)
    requires Ready(o) && (o.transport == File ==> o.stream.failed)
    ensures Emit(clock, o, r) == Quiet(clock, o, r)
  {}

  /** On an open stream with a clear latch, emit hands its event record to the file. */
  lemma HealthyEmit(clock: Clock, o: State, r: Request)
    requires Ready(o) && o.transport == File && !o.stream.failed && |o.stream.data| <= o.stream.capacity
    requires Recorded(o, r)
    ensures var n, e := Emit(clock, o, r), Last(Record(clock, o.log, r));
            Wrote(Trace(o.stream, e), n.stream, EventRecord(e))
            && n.transport == o.transport && n.session == o.session && n.level == o.level
  {
    var log := Record(clock, o.log, r);
    TlvWrote(clock, o.(log := log, stream := Trace(o.stream, Last(log))), TLV_EVENT, EncodeEvent(Last(log)));
  }

  lemma OfferedMore(session: Session, traced: seq<Event>, e: Event)
    requires |session.buildId| == 16
    ensures Offered(session, traced + [e]) == Offered(session, traced) + EventRecord(e)
  {
    BodyAppend(traced, e);
    Regroup(Preamble(session), Body(traced), EventRecord(e));
  }

  lemma TraceKeepsOpen(s: Stream, e: Event, n: Stream)
    requires s.session.Some? && |s.session.value.buildId| == 16
    requires OpenInv(s) && !s.failed && Wrote(Trace(s, e), n, EventRecord(e))
    ensures OpenInv(n)
  {
    OfferedMore(s.session.value, s.traced, e);
  }

  lemma EmitFile(clock: Clock, o: State, r: Request)
    requires Ready(o) && FileInv(o.stream)
    ensures FileInv(Emit(clock, o, r).stream)
  {
    if o.transport != File || o.stream.failed || !Recorded(o, r) {
      if o.transport != File || o.stream.failed {
        LatchedEmit(clock, o, r);
      }
    } else {
      HealthyEmit(clock, o, r);
      TraceKeepsOpen(o.stream, Last(Record(clock, o.log, r)), Emit(clock, o, r).stream);
    }
  }

  lemma CutOfMore(data: seq<Byte>, whole: seq<Byte>, more: seq<Byte>)
    requires IsCut(data, whole)
    ensures IsCut(data, whole + more)
  {
    assert (whole + more)[..|data|] == whole[..|data|];
  }

  lemma OpenCloses(s: Stream)
    requires s.session.Some? && |s.session.value.buildId| == 16 && OpenInv(s)
    ensures IsCut(s.data, Closed(s.session.value, s.traced))
  {
    var offered := Offered(s.session.value, s.traced);
    assert IsCut(s.data, offered);
    CutOfMore(s.data, offered, StreamEnd());
  }

  lemma WroteEnd(s: Stream, n: Stream)
    requires s.session.Some? && |s.session.value.buildId| == 16
    requires OpenInv(s) && !s.failed && Wrote(s, n, StreamEnd())
    ensures IsCut(n.data, Closed(s.session.value, s.traced))
    ensures !n.failed ==> n.data == Closed(s.session.value, s.traced)
  {
    assert n.data == n.data[..|n.data|];
  }

  lemma EndFile(clock: Clock, o: State, luck: Luck)
    requires Ready(o) && CanEnd(o, luck) && FileInv(o.stream)
    ensures var (n, ok) := CaptureEnd(clock, o, luck);
            FileInv(n.stream) && !n.stream.open
            && n.stream.traced == o.stream.traced && n.stream.session == o.stream.session
            && (ok ==> o.stream.session.Some? && n.stream.data == Closed(o.stream.session.value, o.stream.traced))
            && ok == (o.stream.open && !o.stream.failed && Fits(o.stream, StreamEnd()))
            && (o.stream.open ==> |o.stream.data| <= |n.stream.data|)
  {
    var end := StreamEnd();
    assert end == TlvHeader(TLV_STREAM_END, 0) + [];
    if o.stream.open {
      if o.stream.failed {
        OpenCloses(o.stream);
      } else {
        TlvWrote(clock, o, TLV_STREAM_END, []);
        WroteEnd(o.stream, WriteTlv(clock, o, TLV_STREAM_END, []).0.stream);
      }
    }
  }

  /** WritePreamble on a fresh file. */
  lemma PreambleWrote(clock: Clock, o: State, session: Session)
    requires Ready(o) && |session.buildId| == 16
    requires o.stream.open && !o.stream.failed && o.stream.data == []
    ensures var (n, ok) := WritePreamble(clock, o, session);
            Wrote(o.stream, n.stream, Preamble(session)) && ok == !n.stream.failed
            && n.transport == o.transport && n.session == o.session && n.level == o.level
  {
    var (first, ok) := Write(clock, o, FileHeader());
    WriteWrote(clock, o, FileHeader());
    var record := TlvHeader(TLV_SESSION, SESSION_SIZE) + EncodeSession(session);
    if ok {
      TlvWrote(clock, first, TLV_SESSION, EncodeSession(session));
    }
    WroteBoth(o.stream, first.stream, WritePreamble(clock, o, session).0.stream, FileHeader(), record);
    Regroup(FileHeader(), TlvHeader(TLV_SESSION, SESSION_SIZE), EncodeSession(session));
  }

  /** The state a successful capture_begin leaves, apart from the log.  It does not look at the flush. */
  ghost predicate Begun(o: State, n: State, luck: Luck)
    requires o.session.Some? && |o.session.value.buildId| == 16
  {
    && n.transport == File && n.level == o.level && n.session == o.session
    && n.stream == Stream(true, !luck.flushes, luck.capacity, Preamble(o.session.value), o.session, [])
  }

  lemma BeginFile(clock: Clock, o: State, luck: Luck)
    requires Ready(o) && CanBegin(o, luck) && FileInv(o.stream)
    requires o.session.Some? ==> SessionOk(o.session.value)
    ensures var (n, ok) := CaptureBegin(clock, o, luck);
            FileInv(n.stream)
            && ok == (o.session.Some? && luck.opens && 52 <= luck.capacity)
            && (ok ==> Begun(o, n, luck))
  {
    if o.session.Some? && luck.opens {
      var session := o.session.value;
      var started := o.(stream := Stream(true, false, luck.capacity, [], o.session, []));
      PreambleWrote(clock, started, session);
      var (n, ok) := WritePreamble(clock, started, session);
      assert [] + Preamble(session) == Preamble(session) == Offered(session, []);
      if !ok {
        BeginFailed(session, n.stream.data);
      }
    }
  }

  lemma BeginFailed(session: Session, data: seq<Byte>)
    requires |session.buildId| == 16 && IsCut(data, Preamble(session))
    ensures IsCut(data, Closed(session, []))
  {
    CutOfMore(data, Preamble(session), Body([]) + StreamEnd());
    Regroup(Preamble(session), Body([]), StreamEnd());
  }

  // ---------------------------------------------------------------- every run

  /** Traced events carry increasing sequence numbers as long as the counter has not wrapped. */
  ghost predicate TraceInv(history: seq<Entry>, traced: seq<Event>) {
    |history| <= WORD ==>
      && (forall i, j :: 0 <= i < j < |traced| ==> traced[i].sequence < traced[j].sequence)
      && (forall i :: 0 <= i < |traced| ==> traced[i].sequence < |history|)
  }

  ghost predicate Inv(o: State) {
    Ready(o) && RingInv(o.log) && FileInv(o.stream) && TraceInv(o.log.history, o.stream.traced)
  }

  lemma TraceStays(before: State, after: State)
    requires RingInv(before.log) && Grows(before, after) && TraceInv(before.log.history, before.stream.traced)
    requires after.stream.traced == before.stream.traced || after.stream.traced == []
    ensures TraceInv(after.log.history, after.stream.traced)
  {
    assert |before.log.history| <= |after.log.history|;
  }

  lemma LastSequence(log: Log)
    requires RingInv(log) && log.history != []
    ensures |log.history| <= WORD ==> Last(log).sequence == |log.history| - 1
  {
    assert EntryFits(log.history[|log.history| - 1], |log.history| - 1);
  }

  lemma EmitTrace(clock: Clock, o: State, r: Request)
    requires Inv(o)
    ensures TraceInv(Emit(clock, o, r).log.history, Emit(clock, o, r).stream.traced)
  {
    var n := Emit(clock, o, r);
    EmitGrows(clock, o, r);
    if o.transport != File || o.stream.failed {
      LatchedEmit(clock, o, r);
      TraceStays(o, n);
    } else if Recorded(o, r) {
      HealthyEmit(clock, o, r);
      var log := Record(clock, o.log, r);
      var recorded := o.(log := log, stream := Trace(o.stream, Last(log)));
      RecordKeepsRing(clock, o.log, r);
      LastSequence(log);
      TlvGrows(clock, recorded, TLV_EVENT, EncodeEvent(Last(log)));
      TraceMore(o.log.history, n.log.history, o.stream.traced, Last(log), |log.history|);
    }
  }

  lemma TraceMore(before: seq<Entry>, after: seq<Entry>, traced: seq<Event>, e: Event, n: nat)
    requires TraceInv(before, traced) && |before| < n <= |after|
    requires n <= WORD ==> e.sequence == n - 1
    ensures TraceInv(after, traced + [e])
  {}

  lemma EmitKeepsInv(clock: Clock, o: State, r: Request)
    requires Inv(o)
    ensures Inv(Emit(clock, o, r))
  {
    EmitGrows(clock, o, r);
    EmitFile(clock, o, r);
    EmitTrace(clock, o, r);
  }

  lemma StepKeepsInv(clock: Clock, o: State, op: Op)
    requires Inv(o) && Allowed(o, op)
    ensures Inv(Apply(clock, o, op))
  {
    StepGrows(clock, o, op);
    match op
    case DoEmit(r) => EmitKeepsInv(clock, o, r);
    case DoCaptureBegin(luck) =>
      BeginFile(clock, o, luck);
      BeginTrace(clock, o, luck);
      TraceStays(o, Apply(clock, o, op));
    case DoCaptureEnd(luck) =>
      EndFile(clock, o, luck);
      TraceStays(o, Apply(clock, o, op));
    case _ =>
  }

  lemma BeginTrace(clock: Clock, o: State, luck: Luck)
    requires Ready(o) && CanBegin(o, luck)
    requires o.session.Some? ==> SessionOk(o.session.value)
    ensures var n := CaptureBegin(clock, o, luck).0;
            n.stream.traced == o.stream.traced || n.stream.traced == []
  {
    if o.session.Some? && luck.opens {
      PreambleWrote(clock, o.(stream := Stream(true, false, luck.capacity, [], o.session, [])), o.session.value);
    }
  }

  /** Every state of every run satisfies the invariant. */
  lemma {:induction false} RunInv(clock: Clock, states: seq<State>, i: nat)
    requires IsRun(clock, states) && i < |states|
    ensures Inv(states[i])
  {
    if i > 0 {
      RunInv(clock, states, i - 1);
      assert Follows(clock, states[i - 1], states[i - 1 + 1]);
      var op :| Allowed(states[i - 1], op) && states[i] == Apply(clock, states[i - 1], op);
      StepKeepsInv(clock, states[i - 1], op);
    }
  }

  lemma NoGap(log: Log, k: nat)
    requires RingInv(log) && k + 1 < |log.ring|
    ensures log.ring[k + 1].sequence == (log.ring[k].sequence + 1) % WORD
  {
    var at := |log.history| - |log.ring| + k;
    assert EntryFits(log.history[at], at) && EntryFits(log.history[at + 1], at + 1);
    NextWord(at);
  }

  /** In every reachable state the ring holds the newest 256 events, numbered without a gap. */
  lemma RingHoldsNewest(clock: Clock, states: seq<State>, i: nat)
    requires IsRun(clock, states) && i < |states|
    ensures var log := states[i].log;
            && log.ring == Newest(log.history) && log.overflow <= 1
            && |log.history| - |log.ring| == Reported(log.history) + log.overflow + Reports(log.history)
            && forall k :: 0 <= k < |log.ring| - 1 ==> log.ring[k + 1].sequence == (log.ring[k].sequence + 1) % WORD
  {
    RunInv(clock, states, i);
    var log := states[i].log;
    LossAccounted(log);
    forall k | 0 <= k < |log.ring| - 1
      ensures log.ring[k + 1].sequence == (log.ring[k].sequence + 1) % WORD
    {
      NoGap(log, k);
    }
  }

  /** In every reachable state, however its writes failed and wherever a crash cuts it, the capture
      file reads back as a prefix of the events handed to it; while it is open and healthy, as all of them. */
  lemma EveryCutReads(clock: Clock, states: seq<State>, i: nat, n: nat)
    requires IsRun(clock, states) && i < |states|
    requires 12 <= n <= |states[i].stream.data|
    ensures var s := states[i].stream;
            var events := ParseEvents(s.data[..n]);
            && events.Some? && events.value <= s.traced
            && (s.open && !s.failed && n == |s.data| ==> events.value == s.traced)
  {
    RunInv(clock, states, i);
    var s := states[i].stream;
    var session := s.session.value;
    if s.open {
      OpenCloses(s);
      if !s.failed && n == |s.data| {
        assert s.data[..n] == s.data;
        WholeTraceReads(session, s.traced, s.data);
      }
    }
    CutOfCut(s.data, Closed(session, s.traced), n);
    CutReads(session, s.traced, s.data[..n]);
  }

  lemma CutOfCut(data: seq<Byte>, whole: seq<Byte>, n: nat)
    requires IsCut(data, whole) && n <= |data|
    ensures IsCut(data[..n], whole)
  {
    assert data[..n] == whole[..n];
  }

  // ---------------------------------------------------------------- one capture

  function EmitAll(clock: Clock, o: State, requests: seq<Request>): (n: State)
    requires Ready(o)
    ensures Ready(n)
  {
    if requests == [] then o
    else Emit(clock, EmitAll(clock, o, requests[..|requests| - 1]), requests[|requests| - 1])
  }

  /** The requests a level lets through, in order. */
  function Passing(level: Byte, requests: seq<Request>): seq<Request> {
    if requests == [] then []
    else
      var last := requests[|requests| - 1];
      Passing(level, requests[..|requests| - 1]) + (if PassesLevel(level, last.eventType) then [last] else [])
  }

  function RequestOf(e: Event): Request {
    Request(e.eventType, e.source, e.target, e.state, e.msgId)
  }

  function RequestsOf(events: seq<Event>): seq<Request> {
    seq(|events|, i requires 0 <= i < |events| => RequestOf(events[i]))
  }

  lemma RequestsOfMore(events: seq<Event>, e: Event)
    ensures RequestsOf(events + [e]) == RequestsOf(events) + [RequestOf(e)]
  {}

  /** The state of a capture that begun as o after some emits. */
  ghost predicate Capturing(o: State, n: State, passed: seq<Request>) {
    && Inv(n) && n.transport == File && n.level == o.level
    && n.stream.open && n.stream.session == o.stream.session && n.stream.capacity == o.stream.capacity
    && n.stream.failed == (52 + 18 * |passed| > o.stream.capacity)
    && if n.stream.failed then RequestsOf(n.stream.traced) <= passed else RequestsOf(n.stream.traced) == passed
  }

  lemma RecordedRequest(clock: Clock, log: Log, r: Request)
    requires |log.ring| <= RING_DEPTH
    ensures RequestOf(Last(Record(clock, log, r))) == r
  {}

  lemma OpenLength(s: Stream)
    requires s.session.Some? && |s.session.value.buildId| == 16
    requires OpenInv(s) && !s.failed
    ensures |s.data| == 52 + 18 * |s.traced|
  {
    BodyLength(s.traced);
  }

  lemma EmitCaptures(clock: Clock, o: State, n: State, passed: seq<Request>, r: Request)
    requires Capturing(o, n, passed)
    ensures Capturing(o, Emit(clock, n, r), if PassesLevel(o.level, r.eventType) then passed + [r] else passed)
  {
    EmitKeepsInv(clock, n, r);
    if n.stream.failed {
      LatchedEmit(clock, n, r);
    } else if Recorded(n, r) {
      var e := Last(Record(clock, n.log, r));
      HealthyEmit(clock, n, r);
      OpenLength(n.stream);
      RequestsOfMore(n.stream.traced, e);
      RecordedRequest(clock, n.log, r);
    }
  }

  lemma {:induction false} EmitsCapture(clock: Clock, o: State, requests: seq<Request>)
    requires Capturing(o, o, [])
    ensures Capturing(o, EmitAll(clock, o, requests), Passing(o.level, requests))
  {
    if requests != [] {
      var rest := requests[..|requests| - 1];
      EmitsCapture(clock, o, rest);
      EmitCaptures(clock, o, EmitAll(clock, o, rest), Passing(o.level, rest), requests[|requests| - 1]);
    }
  }

  /** One capture, from begin to end: with a file that opens, flushes and, at the end, closes it succeeds exactly
      when the stream can hold every record; then the
      Python tool reads back the session and exactly the emitted events that pass the level, in order.
      Otherwise it reads a prefix of them.  Sequence numbers increase until the counter wraps. */
  lemma CaptureRoundTrip(clock: Clock, o: State, begin: Luck, requests: seq<Request>, end: Luck)
    requires Inv(o) && begin.opens && begin.flushes && 52 <= begin.capacity && end.closes
    requires o.session.Some? && SessionOk(o.session.value)
    ensures var begun := CaptureBegin(clock, o, begin);
            begun.1 &&
            var (n, ok) := CaptureEnd(clock, EmitAll(clock, begun.0, requests), end);
            var passed, events := Passing(o.level, requests), ParseEvents(n.stream.data);
            && ok == (52 + 18 * |passed| + 4 <= begin.capacity)
            && events.Some?
            && RequestsOf(events.value) <= passed
            && (ok ==> RequestsOf(events.value) == passed && ParseSession(n.stream.data) == o.session)
            && TraceInv(n.log.history, events.value)
  {
    var begun := CaptureBegin(clock, o, begin).0;
    StepKeepsInv(clock, o, DoCaptureBegin(begin));
    BeginFile(clock, o, begin);
    EmitsCapture(clock, begun, requests);
    var emitted := EmitAll(clock, begun, requests);
    CapturedReads(clock, begun, emitted, Passing(o.level, requests), end);
  }

  lemma CapturedReads(clock: Clock, o: State, m: State, passed: seq<Request>, end: Luck)
    requires Capturing(o, m, passed) && o.stream.session.Some? && end.closes
    ensures var (n, ok) := CaptureEnd(clock, m, end);
            var events := ParseEvents(n.stream.data);
            && ok == (52 + 18 * |passed| + 4 <= o.stream.capacity)
            && events.Some?
            && RequestsOf(events.value) <= passed
            && (ok ==> RequestsOf(events.value) == passed && ParseSession(n.stream.data) == o.stream.session)
            && TraceInv(n.log.history, events.value)
  {
    var (n, ok) := CaptureEnd(clock, m, end);
    var session, traced := m.stream.session.value, m.stream.traced;
    StepKeepsInv(clock, m, DoCaptureEnd(end));
    EndFile(clock, m, end);
    if !m.stream.failed {
      OpenLength(m.stream);
    }
    CutReads(session, traced, n.stream.data);
    PrefixReads(n.log.history, traced, ParseEvents(n.stream.data).value, passed);
  }

  lemma CutReads(session: Session, traced: seq<Event>, data: seq<Byte>)
    requires SessionOk(session) && IsCut(data, Closed(session, traced)) && 12 <= |data|
    ensures ParseEvents(data).Some? && ParseEvents(data).value <= traced
    ensures data == Closed(session, traced) ==> ParseEvents(data).value == traced && ParseSession(data) == Some(session)
  {
    CutTraceReads(session, traced, data);
    TraceRoundTrip(session, traced);
  }

  lemma PrefixReads(history: seq<Entry>, traced: seq<Event>, events: seq<Event>, passed: seq<Request>)
    requires events <= traced && TraceInv(history, traced) && RequestsOf(traced) <= passed
    ensures RequestsOf(events) <= passed && TraceInv(history, events)
  {}

  // ---------------------------------------------------------------- when a call returns

  /** emit with its nested calls, cut off when emit has been entered depth times. */
  function EmitIn(clock: Clock, o: State, r: Request, depth: nat): (n: Option<State>)
    requires |o.log.ring| <= RING_DEPTH
    ensures n.Some? ==> |n.value.log.ring| <= RING_DEPTH
    decreases depth, 0
  {
    if depth == 0 then None
    else if !Recorded(o, r) then Some(o)
    else
      var log := Record(clock, o.log, r);
      if o.transport != File then Some(o.(log := log))
      else
        var traced := o.(log := log, stream := Trace(o.stream, Last(log)));
        match TlvIn(clock, traced, TLV_EVENT, EncodeEvent(Last(log)), depth - 1)
        case None => None
        case Some((n, _)) => Some(n)
  }

  function TlvIn(clock: Clock, o: State, kind: nat, payload: seq<Byte>, depth: nat): (n: Option<(State, bool)>)
    requires |o.log.ring| <= RING_DEPTH
    ensures n.Some? ==> |n.value.0.log.ring| <= RING_DEPTH
    decreases depth, 2
  {
    match WriteIn(clock, o, TlvHeader(kind, |payload|), depth)
    case None => None
    case Some((n, ok)) => if !ok || payload == [] then Some((n, ok)) else WriteIn(clock, n, payload, depth)
  }

  function WriteIn(clock: Clock, o: State, bytes: seq<Byte>, depth: nat): (n: Option<(State, bool)>)
    requires |o.log.ring| <= RING_DEPTH
    ensures n.Some? ==> |n.value.0.log.ring| <= RING_DEPTH
    decreases depth, 1
  {
    if o.stream.open && bytes == [] then Some((o, true))
    else if o.stream.open && o.stream.failed then Some((o, false))
    else
      var written := if o.stream.open then o.(stream := Extend(o.stream, bytes)) else o;
      if o.stream.open && Fits(o.stream, bytes) then Some((written, true))
      else
        match EmitIn(clock, written, HAL_FAULT, depth)
        case None => None
        case Some(n) => Some((n, false))
  }

  lemma HeaderFirst(clock: Clock, o: State, kind: nat, payload: seq<Byte>, depth: nat)
    requires |o.log.ring| <= RING_DEPTH
    ensures o.stream.open && o.stream.failed ==> TlvIn(clock, o, kind, payload, depth) == Some((o, false))
    ensures !o.stream.open && EmitIn(clock, o, HAL_FAULT, depth) == None ==> TlvIn(clock, o, kind, payload, depth) == None
  {
    assert |TlvHeader(kind, |payload|)| == 4;
  }

  lemma LatchedReturns(clock: Clock, o: State, r: Request, depth: nat)
    requires Ready(o) && (o.transport == File ==> o.stream.failed) && depth >= 1
    ensures EmitIn(clock, o, r, depth) == Some(Quiet(clock, o, r))
  {
    if Recorded(o, r) && o.transport == File {
      var log := Record(clock, o.log, r);
      HeaderFirst(clock, o.(log := log, stream := o.stream), TLV_EVENT, EncodeEvent(Last(log)), depth - 1);
      assert Trace(o.stream, Last(log)) == o.stream;
    }
  }

  lemma WriteReturns(clock: Clock, o: State, bytes: seq<Byte>, depth: nat)
    requires Ready(o) && depth >= 1
    ensures WriteIn(clock, o, bytes, depth) == Some(Write(clock, o, bytes))
  {
    var written := if o.stream.open then o.(stream := Extend(o.stream, bytes)) else o;
    if !(o.stream.open && (o.stream.failed || Fits(o.stream, bytes))) {
      LatchedReturns(clock, written, HAL_FAULT, depth);
    }
  }

  /** With a stream for the FILE transport, emit is over after at most one nested emit. */
  lemma EmitReturns(clock: Clock, o: State, r: Request, depth: nat)
    requires Ready(o) && depth >= 2
    ensures EmitIn(clock, o, r, depth) == Some(Emit(clock, o, r))
  {
    if Recorded(o, r) && o.transport == File {
      var log := Record(clock, o.log, r);
      var traced := o.(log := log, stream := Trace(o.stream, Last(log)));
      WriteReturns(clock, traced, TlvHeader(TLV_EVENT, |EncodeEvent(Last(log))|), depth - 1);
      WriteReturns(clock, Write(clock, traced, TlvHeader(TLV_EVENT, |EncodeEvent(Last(log))|)).0, EncodeEvent(Last(log)), depth - 1);
    }
  }

  /** Without one, every write fails and reports its failure by an emit, whose write fails. */
  lemma {:induction false} EmitRunsAway(clock: Clock, o: State, r: Request, depth: nat)
    requires |o.log.ring| <= RING_DEPTH && o.transport == File && !o.stream.open && Recorded(o, r)
    ensures EmitIn(clock, o, r, depth) == None
    decreases depth
  {
    if depth > 0 {
      var log := Record(clock, o.log, r);
      var traced := o.(log := log, stream := Trace(o.stream, Last(log)));
      EmitRunsAway(clock, traced, HAL_FAULT, depth - 1);
      HeaderFirst(clock, traced, TLV_EVENT, EncodeEvent(Last(log)), depth - 1);
    }
  }

  /** emit returns exactly when it discards the event or the FILE transport has an open stream. */
  lemma EmitReturnsIff(clock: Clock, o: State, r: Request)
    requires |o.log.ring| <= RING_DEPTH
    ensures (exists depth :: EmitIn(clock, o, r, depth).Some?) <==> Ready(o) || !Recorded(o, r)
  {
    if Ready(o) {
      EmitReturns(clock, o, r, 2);
    } else if !Recorded(o, r) {
      assert EmitIn(clock, o, r, 1).Some?;
    } else {
      forall depth: nat
        ensures EmitIn(clock, o, r, depth) == None
      {
        EmitRunsAway(clock, o, r, depth);
      }
    }
  }

  /** A capture begun inside another one whose file cannot be created never returns: the old file is closed by
      then, and the fault that open reports goes to it. */
  lemma BeginRunsAway(clock: Clock, o: State, depth: nat)
    requires Ready(o) && o.transport == File
    ensures EmitIn(clock, o.(stream := NO_STREAM), HAL_FAULT, depth) == None
  {
    EmitRunsAway(clock, o.(stream := NO_STREAM), HAL_FAULT, depth);
  }

  /** A capture whose file cannot be closed never returns from capture_end: the handle is gone when close reports
      the failure, and the transport is still FILE. */
  lemma EndRunsAway(clock: Clock, o: State, luck: Luck, depth: nat)
    requires Ready(o) && o.transport == File && FileInv(o.stream)
    ensures var m := Flush(clock, WriteTlv(clock, o, TLV_STREAM_END, []).0, luck);
            m.transport == File && m.stream.open
            && EmitIn(clock, m.(stream := m.stream.(open := false, failed := false)), HAL_FAULT, depth) == None
  {
    if !o.stream.failed {
      TlvWrote(clock, o, TLV_STREAM_END, []);
    }
    var m := Flush(clock, WriteTlv(clock, o, TLV_STREAM_END, []).0, luck);
    EmitRunsAway(clock, m.(stream := m.stream.(open := false, failed := false)), HAL_FAULT, depth);
  }

  /** One whose preamble does not fit returns -1 and leaves the FILE transport without a stream: the next event
      that passes the level never returns. */
  lemma BeginStrands(clock: Clock, o: State, luck: Luck, r: Request, depth: nat)
    requires Ready(o) && o.transport == File && luck.opens && luck.closes && luck.capacity < 52
    requires o.session.Some? && SessionOk(o.session.value)
    requires PassesLevel(o.level, r.eventType)
    ensures var (n, ok) := CaptureBegin(clock, o, luck);
            !ok && n.transport == File && !n.stream.open && EmitIn(clock, n, r, depth) == None
  {
    var started := o.(stream := Stream(true, false, luck.capacity, [], o.session, []));
    PreambleWrote(clock, started, o.session.value);
    EmitRunsAway(clock, CaptureBegin(clock, o, luck).0, r, depth);
  }

  function FlushIn(clock: Clock, o: State, luck: Luck, depth: nat): Option<State>
    requires |o.log.ring| <= RING_DEPTH
  {
    if !o.stream.open then EmitIn(clock, o, HAL_FAULT, depth)
    else if o.stream.failed || luck.flushes then Some(o)
    else EmitIn(clock, o.(stream := o.stream.(failed := true)), HAL_FAULT, depth)
  }

  function CloseIn(clock: Clock, o: State, luck: Luck, depth: nat): Option<State>
    requires |o.log.ring| <= RING_DEPTH
  {
    var closed := o.(stream := o.stream.(open := false, failed := false));
    if !o.stream.open then Some(o)
    else if luck.closes then Some(closed)
    else EmitIn(clock, closed, HAL_FAULT, depth)
  }

  /** The preamble, and what follows it when it has been written or not. */
  function PreambleIn(clock: Clock, o: State, session: Session, depth: nat): (n: Option<(State, bool)>)
    requires |o.log.ring| <= RING_DEPTH && |session.buildId| == 16
    ensures n.Some? ==> |n.value.0.log.ring| <= RING_DEPTH
  {
    match WriteIn(clock, o, FileHeader(), depth)
    case None => None
    case Some((n, ok)) => if ok then TlvIn(clock, n, TLV_SESSION, EncodeSession(session), depth) else Some((n, false))
  }

  /** capture_begin with its nested emits. */
  function BeginIn(clock: Clock, o: State, luck: Luck, depth: nat): Option<(State, bool)>
    requires |o.log.ring| <= RING_DEPTH && (o.session.Some? ==> |o.session.value.buildId| == 16)
  {
    if o.session.None? then Some((o, false))
    else if !luck.opens then
      match EmitIn(clock, o.(stream := NO_STREAM), HAL_FAULT, depth)
      case None => None
      case Some(n) => Some((n, false))
    else
      match PreambleIn(clock, o.(stream := Stream(true, false, luck.capacity, [], o.session, [])), o.session.value, depth)
      case None => None
      case Some((n, ok)) =>
        if ok then
          match FlushIn(clock, n, luck, depth)
          case None => None
          case Some(f) => Some((f.(transport := File), true))
        else
          match CloseIn(clock, n, luck, depth)
          case None => None
          case Some(c) => Some((c, false))
  }

  /** capture_end with its nested emits. */
  function EndIn(clock: Clock, o: State, luck: Luck, depth: nat): Option<(State, bool)>
    requires |o.log.ring| <= RING_DEPTH
  {
    match TlvIn(clock, o, TLV_STREAM_END, [], depth)
    case None => None
    case Some((n, ok)) =>
      match FlushIn(clock, n, luck, depth)
      case None => None
      case Some(f) =>
        if |f.log.ring| > RING_DEPTH then None
        else
          match CloseIn(clock, f, luck, depth)
          case None => None
          case Some(c) => Some((c.(transport := Null), ok))
  }

  lemma TlvReturns(clock: Clock, o: State, kind: nat, payload: seq<Byte>, depth: nat)
    requires Ready(o) && depth >= 1
    ensures TlvIn(clock, o, kind, payload, depth) == Some(WriteTlv(clock, o, kind, payload))
  {
    WriteReturns(clock, o, TlvHeader(kind, |payload|), depth);
    WriteReturns(clock, Write(clock, o, TlvHeader(kind, |payload|)).0, payload, depth);
  }

  lemma FlushReturns(clock: Clock, o: State, luck: Luck, depth: nat)
    requires Ready(o) && depth >= 1
    ensures FlushIn(clock, o, luck, depth) == Some(Flush(clock, o, luck))
  {
    if !o.stream.open {
      LatchedReturns(clock, o, HAL_FAULT, depth);
    } else {
      LatchedReturns(clock, o.(stream := o.stream.(failed := true)), HAL_FAULT, depth);
    }
  }

  /** close returns unless it fails while the transport is FILE. */
  lemma CloseReturns(clock: Clock, o: State, luck: Luck, depth: nat)
    requires Ready(o) && o.stream.open
    ensures o.transport == File && !luck.closes ==> CloseIn(clock, o, luck, depth) == None
    ensures !(o.transport == File && !luck.closes) && depth >= 1 ==>
              CloseIn(clock, o, luck, depth) == Some(Close(clock, o, luck))
  {
    var closed := o.(stream := o.stream.(open := false, failed := false));
    if !luck.closes {
      if o.transport == File {
        EmitRunsAway(clock, closed, HAL_FAULT, depth);
      } else if depth >= 1 {
        LatchedReturns(clock, closed, HAL_FAULT, depth);
      }
    }
  }

  lemma PreambleReturns(clock: Clock, o: State, session: Session, depth: nat)
    requires Ready(o) && |session.buildId| == 16 && depth >= 1
    ensures PreambleIn(clock, o, session, depth) == Some(WritePreamble(clock, o, session))
  {
    WriteReturns(clock, o, FileHeader(), depth);
    TlvReturns(clock, Write(clock, o, FileHeader()).0, TLV_SESSION, EncodeSession(session), depth);
  }

  /** A write keeps stream and transport. */
  lemma TlvKeepsOpen(clock: Clock, o: State, kind: nat, payload: seq<Byte>)
    requires Ready(o)
    ensures var n := WriteTlv(clock, o, kind, payload).0; n.stream.open == o.stream.open && n.transport == o.transport
  {}

  lemma BeginStarted(clock: Clock, o: State, luck: Luck, depth: nat)
    requires Ready(o) && o.session.Some? && SessionOk(o.session.value) && luck.opens && depth >= 1
    ensures CanBegin(o, luck) ==> BeginIn(clock, o, luck, depth) == Some(CaptureBegin(clock, o, luck))
    ensures !CanBegin(o, luck) ==> BeginIn(clock, o, luck, depth) == None
  {
    var started := o.(stream := Stream(true, false, luck.capacity, [], o.session, []));
    var session := o.session.value;
    PreambleReturns(clock, started, session, depth);
    PreambleWrote(clock, started, session);
    var (n, ok) := WritePreamble(clock, started, session);
    if ok {
      FlushReturns(clock, n, luck, depth);
    } else {
      CloseReturns(clock, n, luck, depth);
    }
  }

  lemma BeginDeeper(clock: Clock, o: State, luck: Luck, depth: nat)
    requires Ready(o) && o.session.Some? && SessionOk(o.session.value) && !CanBegin(o, luck) && depth >= 1
    ensures BeginIn(clock, o, luck, depth) == None
  {
    if luck.opens {
      BeginStarted(clock, o, luck, depth);
    } else {
      EmitRunsAway(clock, o.(stream := NO_STREAM), HAL_FAULT, depth);
    }
  }

  /** capture_begin returns, and then as specified, if and only if no capture is under way on the FILE transport, or
      the file opens and, should its preamble not fit, closes. */
  lemma BeginReturnsIff(clock: Clock, o: State, luck: Luck)
    requires Ready(o) && (o.session.Some? ==> SessionOk(o.session.value))
    ensures (exists depth: nat :: depth >= 1 && BeginIn(clock, o, luck, depth).Some?) <==> CanBegin(o, luck)
    ensures CanBegin(o, luck) ==> BeginIn(clock, o, luck, 1) == Some(CaptureBegin(clock, o, luck))
  {
    if o.session.Some? && !CanBegin(o, luck) {
      forall depth: nat | depth >= 1
        ensures BeginIn(clock, o, luck, depth) == None
      {
        BeginDeeper(clock, o, luck, depth);
      }
    } else if o.session.Some? && luck.opens {
      BeginStarted(clock, o, luck, 1);
    } else if o.session.Some? {
      LatchedReturns(clock, o.(stream := NO_STREAM), HAL_FAULT, 1);
    }
    assert CanBegin(o, luck) ==> BeginIn(clock, o, luck, 1).Some?;
  }

  lemma EndDeep(clock: Clock, o: State, luck: Luck, depth: nat)
    requires Ready(o) && depth >= 1
    ensures CanEnd(o, luck) ==> EndIn(clock, o, luck, depth) == Some(CaptureEnd(clock, o, luck))
    ensures !CanEnd(o, luck) ==> EndIn(clock, o, luck, depth) == None
  {
    var n := WriteTlv(clock, o, TLV_STREAM_END, []).0;
    TlvReturns(clock, o, TLV_STREAM_END, [], depth);
    TlvKeepsOpen(clock, o, TLV_STREAM_END, []);
    FlushReturns(clock, n, luck, depth);
    var f := Flush(clock, n, luck);
    if f.stream.open {
      CloseReturns(clock, f, luck, depth);
    }
  }

  /** capture_end returns, and then as specified, if and only if the transport is not FILE or the file closes. */
  lemma EndReturnsIff(clock: Clock, o: State, luck: Luck)
    requires Ready(o)
    ensures (exists depth: nat :: depth >= 1 && EndIn(clock, o, luck, depth).Some?) <==> CanEnd(o, luck)
    ensures CanEnd(o, luck) ==> EndIn(clock, o, luck, 1) == Some(CaptureEnd(clock, o, luck))
  {
    EndDeep(clock, o, luck, 1);
    forall depth: nat | depth >= 1
      ensures EndIn(clock, o, luck, depth).Some? ==> CanEnd(o, luck)
    {
      EndDeep(clock, o, luck, depth);
    }
  }

  // ---------------------------------------------------------------- reports and losses, reached

  lemma RecordLength(clock: Clock, log: Log, r: Request)
    requires RingInv(log)
    ensures |Record(clock, log, r).history| == |log.history| + if |log.history| > RING_DEPTH then 2 else 1
  {
    RecoverConsistent(clock, log);
  }

  lemma EmitLength(clock: Clock, o: State, r: Request)
    requires Ready(o) && RingInv(o.log) && o.transport == Stdout && Recorded(o, r)
    ensures var n := Emit(clock, o, r);
            && n == o.(log := n.log) && RingInv(n.log)
            && |n.log.history| == |o.log.history| + if |o.log.history| > RING_DEPTH then 2 else 1
  {
    RecordLength(clock, o.log, r);
    RecordKeepsRing(clock, o.log, r);
  }

  /** Only the log has changed since the start, and its history is as long as n emits make it. */
  ghost predicate Logged(o: State, level: Byte, n: nat) {
    && o == Initial(level).(log := o.log) && RingInv(o.log)
    && |o.log.history| == if n <= 257 then n else 2 * n - 257
  }

  lemma LoggedStep(clock: Clock, level: Byte, o: State, r: Request, n: nat)
    requires Logged(o, level, n) && PassesLevel(level, r.eventType)
    ensures Logged(Emit(clock, o, r), level, n + 1)
  {
    EmitLength(clock, o, r);
    NextLength(n, |o.log.history|);
  }

  /** After n emits that pass the level, the history is n long up to 257, and 2 n - 257 from there on. */
  lemma {:induction false} HistoryLength(clock: Clock, level: Byte, requests: seq<Request>)
    requires forall i :: 0 <= i < |requests| ==> PassesLevel(level, requests[i].eventType)
    ensures Logged(EmitAll(clock, Initial(level), requests), level, |requests|)
  {
    if requests != [] {
      var last := |requests| - 1;
      HistoryLength(clock, level, requests[..last]);
      LoggedStep(clock, level, EmitAll(clock, Initial(level), requests[..last]), requests[last], last);
    }
  }

  lemma NextLength(n: nat, length: nat)
    requires length == if n <= 257 then n else 2 * n - 257
    ensures length + (if length > RING_DEPTH then 2 else 1) == if n + 1 <= 257 then n + 1 else 2 * (n + 1) - 257
  {}

  /** The 258th event already loses more than is ever reported: of three lost events one is reported and one is
      pending; the third was pushed out by the report itself. */
  lemma LossGoesUnreported(clock: Clock, level: Byte, requests: seq<Request>)
    requires forall i :: 0 <= i < |requests| ==> PassesLevel(level, requests[i].eventType)
    requires |requests| == 258
    ensures var log := EmitAll(clock, Initial(level), requests).log;
            |log.history| - |log.ring| == 3 && Reported(log.history) == 1 && log.overflow == 1
  {
    HistoryLength(clock, level, requests);
    LostAt259(EmitAll(clock, Initial(level), requests).log);
  }

  lemma LostAt259(log: Log)
    requires RingInv(log) && |log.history| == 259
    ensures |log.history| - |log.ring| == 3 && Reported(log.history) == 1 && log.overflow == 1
  {
    ReportCount(log.history);
  }
}
