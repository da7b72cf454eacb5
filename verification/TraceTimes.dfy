/** The timestamps of the Observatory (core/src/observatory/obs.c): every event that enters the ring reads the clock once,
    and a trace file gives back those readings. */
module TraceTimes {
  import opened Words
  import opened Wrappers
  import opened TraceFormat
  import opened Observatory

  /** at are increasing positions in the history at which these events stand. */
  ghost predicate Places(events: seq<Event>, history: seq<Entry>, at: seq<nat>) {
    && |at| == |events|
    && (forall k :: 0 <= k < |at| ==> at[k] < |history| && history[at[k]].event == events[k])
    && (forall j, k :: 0 <= j < k < |at| ==> at[j] < at[k])
  }

  /** The event at each position of the history carries the clock reading of that number, and the events of the trace
      stand in the history in their order. */
  ghost predicate Stamped(clock: Clock, o: State) {
    && o.log.ticks == |o.log.history|
    && (forall i :: 0 <= i < |o.log.history| ==> o.log.history[i].event.timestamp == clock(i))
    && exists at :: Places(o.stream.traced, o.log.history, at)
  }

  ghost predicate StaysStamped(clock: Clock, before: State, after: State) {
    Stamped(clock, before) ==> Stamped(clock, after)
  }

  lemma PlacesStay(events: seq<Event>, history: seq<Entry>, longer: seq<Entry>, at: seq<nat>)
    requires Places(events, history, at) && history <= longer
    ensures Places(events, longer, at)
  {}

  lemma PlacesMore(events: seq<Event>, history: seq<Entry>, longer: seq<Entry>, at: seq<nat>)
    requires Places(events, history, at) && history <= longer && |history| < |longer|
    ensures Places(events + [longer[|longer| - 1].event], longer, at + [|longer| - 1])
  {}

  lemma AppendStamps(clock: Clock, log: Log, r: Request, recovery: bool)
    requires |log.ring| <= RING_DEPTH && log.ticks == |log.history|
    requires forall i :: 0 <= i < |log.history| ==> log.history[i].event.timestamp == clock(i)
    ensures var n := Append(log, Stamp(clock, log, r), recovery);
            && n.ticks == |n.history| && log.history <= n.history && |n.history| == |log.history| + 1
            && forall i :: 0 <= i < |n.history| ==> n.history[i].event.timestamp == clock(i)
  {}

  lemma RecordStamps(clock: Clock, log: Log, r: Request)
    requires |log.ring| <= RING_DEPTH && log.ticks == |log.history|
    requires forall i :: 0 <= i < |log.history| ==> log.history[i].event.timestamp == clock(i)
    ensures var n := Observatory.Record(clock, log, r);
            && n.ticks == |n.history| && log.history <= n.history && |log.history| < |n.history|
            && forall i :: 0 <= i < |n.history| ==> n.history[i].event.timestamp == clock(i)
  {
    if log.overflow > 0 {
      AppendStamps(clock, log.(overflow := 0), OverflowReport(log.overflow), true);
    }
    AppendStamps(clock, Recover(clock, log), r, false);
  }

  lemma QuietStamps(clock: Clock, o: State, r: Request)
    requires |o.log.ring| <= RING_DEPTH
    ensures StaysStamped(clock, o, Quiet(clock, o, r))
  {
    if Stamped(clock, o) && Recorded(o, r) {
      var at :| Places(o.stream.traced, o.log.history, at);
      RecordStamps(clock, o.log, r);
      PlacesStay(o.stream.traced, o.log.history, Observatory.Record(clock, o.log, r).history, at);
    }
  }

  /** Only the trace and the log matter. */
  lemma StreamStamps(clock: Clock, o: State, n: State)
    requires n.log == o.log && (n.stream.traced == o.stream.traced || n.stream.traced == [])
    ensures StaysStamped(clock, o, n)
  {
    if Stamped(clock, o) {
      var at :| Places(o.stream.traced, o.log.history, at);
      if n.stream.traced == [] {
        assert Places([], n.log.history, []);
      } else {
        assert Places(n.stream.traced, n.log.history, at);
      }
    }
  }

  lemma WriteStamps(clock: Clock, o: State, bytes: seq<Byte>)
    requires Ready(o)
    ensures StaysStamped(clock, o, Write(clock, o, bytes).0)
  {
    var written := o.(stream := Extend(o.stream, bytes));
    QuietStamps(clock, o, HAL_FAULT);
    StreamStamps(clock, o, written);
    QuietStamps(clock, written, HAL_FAULT);
  }

  lemma TlvStamps(clock: Clock, o: State, kind: nat, payload: seq<Byte>)
    requires Ready(o)
    ensures StaysStamped(clock, o, WriteTlv(clock, o, kind, payload).0)
  {
    WriteStamps(clock, o, TlvHeader(kind, |payload|));
    WriteStamps(clock, Write(clock, o, TlvHeader(kind, |payload|)).0, payload);
  }

  /** The event is traced where it has just been recorded. */
  lemma TracedStamps(clock: Clock, o: State, r: Request)
    requires |o.log.ring| <= RING_DEPTH && Stamped(clock, o)
    ensures var log := Observatory.Record(clock, o.log, r);
            && Stamped(clock, o.(log := log)) && Stamped(clock, o.(log := log, stream := Trace(o.stream, Last(log))))
  {
    var log := Observatory.Record(clock, o.log, r);
    var at :| Places(o.stream.traced, o.log.history, at);
    RecordStamps(clock, o.log, r);
    PlacesStay(o.stream.traced, o.log.history, log.history, at);
    PlacesMore(o.stream.traced, o.log.history, log.history, at);
  }

  lemma EmitStamps(clock: Clock, o: State, r: Request)
    requires Ready(o)
    ensures StaysStamped(clock, o, Emit(clock, o, r))
  {
    if Stamped(clock, o) && Recorded(o, r) {
      var log := Observatory.Record(clock, o.log, r);
      TracedStamps(clock, o, r);
      if o.transport == File {
        TlvStamps(clock, o.(log := log, stream := Trace(o.stream, Last(log))), TLV_EVENT, EncodeEvent(Last(log)));
      }
    }
  }

  lemma PreambleStamps(clock: Clock, o: State, session: Session)
    requires Ready(o) && |session.buildId| == 16
    ensures StaysStamped(clock, o, WritePreamble(clock, o, session).0)
  {
    WriteStamps(clock, o, FileHeader());
    TlvStamps(clock, Write(clock, o, FileHeader()).0, TLV_SESSION, EncodeSession(session));
  }

  lemma FlushStamps(clock: Clock, o: State, luck: Luck)
    requires Ready(o)
    ensures StaysStamped(clock, o, Flush(clock, o, luck))
  {
    var latched := o.(stream := o.stream.(failed := true));
    QuietStamps(clock, o, HAL_FAULT);
    StreamStamps(clock, o, latched);
    QuietStamps(clock, latched, HAL_FAULT);
  }

  lemma CloseStamps(clock: Clock, o: State, luck: Luck)
    requires |o.log.ring| <= RING_DEPTH
    ensures StaysStamped(clock, o, Close(clock, o, luck))
  {
    var closed := o.(stream := o.stream.(open := false, failed := false));
    StreamStamps(clock, o, closed);
    QuietStamps(clock, closed, HAL_FAULT);
  }

  lemma StartedStamps(clock: Clock, o: State, session: Session, luck: Luck)
    requires Ready(o) && |session.buildId| == 16
    ensures var written := WritePreamble(clock, o, session);
            StaysStamped(clock, o, if written.1 then Flush(clock, written.0, luck) else Close(clock, written.0, luck))
  {
    var written := WritePreamble(clock, o, session).0;
    PreambleStamps(clock, o, session);
    FlushStamps(clock, written, luck);
    CloseStamps(clock, written, luck);
  }

  lemma BeginStamps(clock: Clock, o: State, luck: Luck)
    requires Ready(o) && CanBegin(o, luck)
    requires o.session.Some? ==> |o.session.value.buildId| == 16
    ensures StaysStamped(clock, o, CaptureBegin(clock, o, luck).0)
  {
    if o.session.Some? && !luck.opens {
      StreamStamps(clock, o, o.(stream := NO_STREAM));
      QuietStamps(clock, o.(stream := NO_STREAM), HAL_FAULT);
    } else if o.session.Some? {
      var started := o.(stream := Stream(true, false, luck.capacity, [], o.session, []));
      var written := WritePreamble(clock, started, o.session.value);
      StreamStamps(clock, o, started);
      StartedStamps(clock, started, o.session.value, luck);
      var n := if written.1 then Flush(clock, written.0, luck) else Close(clock, written.0, luck);
      StreamStamps(clock, n, CaptureBegin(clock, o, luck).0);
    }
  }

  lemma EndStamps(clock: Clock, o: State, luck: Luck)
    requires Ready(o) && CanEnd(o, luck)
    ensures StaysStamped(clock, o, CaptureEnd(clock, o, luck).0)
  {
    var end := WriteTlv(clock, o, TLV_STREAM_END, []).0;
    TlvStamps(clock, o, TLV_STREAM_END, []);
    FlushStamps(clock, end, luck);
    CloseStamps(clock, Flush(clock, end, luck), luck);
    StreamStamps(clock, Close(clock, Flush(clock, end, luck), luck), CaptureEnd(clock, o, luck).0);
  }

  lemma StepStamps(clock: Clock, o: State, op: Op)
    requires Ready(o) && Allowed(o, op)
    ensures StaysStamped(clock, o, Apply(clock, o, op))
  {
    match op
    case DoEmit(r) => EmitStamps(clock, o, r);
    case DoCaptureBegin(luck) => BeginStamps(clock, o, luck);
    case DoCaptureEnd(luck) => EndStamps(clock, o, luck);
    case _ => StreamStamps(clock, o, Apply(clock, o, op));
  }

  /** In every reachable state the event at position i of the history carries the i-th reading of the clock. */
  lemma {:induction false} RunStamped(clock: Clock, states: seq<State>, i: nat)
    requires IsRun(clock, states) && i < |states|
    ensures Stamped(clock, states[i])
  {
    if i == 0 {
      assert Places([], [], []);
    } else {
      RunStamped(clock, states, i - 1);
      RunInv(clock, states, i - 1);
      assert Follows(clock, states[i - 1], states[i - 1 + 1]);
      var op :| Allowed(states[i - 1], op) && states[i] == Apply(clock, states[i - 1], op);
      StepStamps(clock, states[i - 1], op);
    }
  }

  /** What a reader of a cut file gets: the events at increasing positions of the history, each with the reading and the
      number of its position. */
  ghost predicate Dated(clock: Clock, log: Log, events: seq<Event>) {
    exists at :: Places(events, log.history, at)
                 && forall k :: 0 <= k < |events| ==> events[k].timestamp == clock(at[k]) && events[k].sequence == at[k] % WORD
  }

  lemma PrefixDated(clock: Clock, o: State, events: seq<Event>)
    requires Stamped(clock, o) && RingInv(o.log) && events <= o.stream.traced
    ensures Dated(clock, o.log, events)
  {
    var at :| Places(o.stream.traced, o.log.history, at);
    var front := at[..|events|];
    assert Places(events, o.log.history, front);
    forall k | 0 <= k < |events|
      ensures events[k].timestamp == clock(front[k]) && events[k].sequence == front[k] % WORD
    {
      assert EntryFits(o.log.history[front[k]], front[k]);
    }
  }

  /** In every reachable state, wherever the file is cut, what reads back is dated. */
  lemma EveryCutDated(clock: Clock, states: seq<State>, i: nat, n: nat)
    requires IsRun(clock, states) && i < |states|
    requires 12 <= n <= |states[i].stream.data|
    ensures var events := ParseEvents(states[i].stream.data[..n]); events.Some? && Dated(clock, states[i].log, events.value)
  {
    RunInv(clock, states, i);
    RunStamped(clock, states, i);
    EveryCutReads(clock, states, i, n);
    PrefixDated(clock, states[i], ParseEvents(states[i].stream.data[..n]).value);
  }
}
