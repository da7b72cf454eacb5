/** The .iqtrace byte format: what the Observatory writes (core/src/observatory/obs.c) and what
    the Python tool reads (tools/embediq_obs/embediq_obs.py). */
module TraceFormat {
  import opened Words
  import opened Wrappers

  type Byte = b: int | 0 <= b < 256
  type U16 = n: int | 0 <= n < 0x1_0000

  const TLV_SESSION: nat := 1
  const TLV_EVENT: nat := 2
  const TLV_EVENT_BATCH: nat := 3
  const TLV_STREAM_END: nat := 4
  const FILE_HDR_SIZE: nat := 8
  const TLV_HDR_SIZE: nat := 4
  const SESSION_SIZE: nat := 40
  const EVENT_SIZE: nat := 14

  // ---------------------------------------------------------------- little-endian integers

  predicate FitsIn(n: nat, width: nat) {
    if width == 0 then n == 0 else FitsIn(n / 256, width - 1)
  }

  function Le(n: nat, width: nat): (b: seq<Byte>)
    ensures |b| == width
    decreases width
  {
    if width == 0 then [] else [n % 256] + Le(n / 256, width - 1)
  }

  function LeValue(b: seq<Byte>): (n: nat)
    ensures |b| <= 1 ==> n < 0x100
    ensures |b| <= 2 ==> n < 0x1_0000
    ensures |b| <= 3 ==> n < 0x100_0000
    ensures |b| <= 4 ==> n < 0x1_0000_0000
  {
    if b == [] then 0 else b[0] + 256 * LeValue(b[1..])
  }

  lemma {:induction false} LeRoundTrip(n: nat, width: nat)
    requires FitsIn(n, width)
    ensures LeValue(Le(n, width)) == n
    decreases width
  {
    if width > 0 {
      LeRoundTrip(n / 256, width - 1);
      assert Le(n, width)[1..] == Le(n / 256, width - 1);
    }
  }

  lemma FitsBounds(n: nat)
    ensures n < 256 ==> FitsIn(n, 1)
    ensures n < 0x1_0000 ==> FitsIn(n, 2)
    ensures n < 0x1_0000_0000 ==> FitsIn(n, 4)
  {
    var b, c, d := n / 256, n / 256 / 256, n / 256 / 256 / 256;
    assert FitsIn(d, 1) == FitsIn(c, 2) == FitsIn(b, 3) == FitsIn(n, 4);
    assert FitsIn(b, 1) == FitsIn(n, 2);
    assert FitsIn(n, 1) == FitsIn(n / 256, 0);
    assert FitsIn(b, 1) == FitsIn(b / 256, 0);
    assert FitsIn(d, 1) == FitsIn(d / 256, 0);
  }

  // ---------------------------------------------------------------- events

  datatype Event = Event(
    eventType: Byte,
    source: Byte,
    target: Byte,
    state: Byte,
    msgId: U16,
    timestamp: U32,
    sequence: U32)

  function EncodeEvent(e: Event): (b: seq<Byte>)
    ensures |b| == EVENT_SIZE
  {
    [e.eventType, e.source, e.target, e.state] + Le(e.msgId, 2) + Le(e.timestamp, 4) + Le(e.sequence, 4)
  }

  /** _parse_event_bytes. */
  function DecodeEvent(b: seq<Byte>): Event
    requires |b| == EVENT_SIZE
  {
    Event(b[0], b[1], b[2], b[3], LeValue(b[4..6]), LeValue(b[6..10]), LeValue(b[10..14]))
  }

  lemma EventFields(head: seq<Byte>, m: seq<Byte>, t: seq<Byte>, q: seq<Byte>)
    requires |head| == |t| == |q| == 4 && |m| == 2
    ensures var b := head + m + t + q; b[..4] == head && b[4..6] == m && b[6..10] == t && b[10..14] == q
  {}

  lemma EventRoundTrip(e: Event)
    ensures DecodeEvent(EncodeEvent(e)) == e
  {
    var head: seq<Byte> := [e.eventType, e.source, e.target, e.state];
    EventFields(head, Le(e.msgId, 2), Le(e.timestamp, 4), Le(e.sequence, 4));
    FitsBounds(e.msgId);
    FitsBounds(e.timestamp);
    FitsBounds(e.sequence);
    LeRoundTrip(e.msgId, 2);
    LeRoundTrip(e.timestamp, 4);
    LeRoundTrip(e.sequence, 4);
  }

  // ---------------------------------------------------------------- sessions

  datatype Session = Session(
    deviceId: U32,
    fwVersion: U32,
    timestampBase: nat,
    sessionId: U32,
    platformId: Byte,
    traceLevel: Byte,
    buildId: seq<Byte>)

  predicate SessionOk(s: Session) {
    FitsIn(s.timestampBase, 8) && |s.buildId| == 16
  }

  function EncodeSession(s: Session): (b: seq<Byte>)
    requires |s.buildId| == 16
    ensures |b| == SESSION_SIZE
  {
    Le(s.deviceId, 4) + Le(s.fwVersion, 4) + Le(s.timestampBase, 8) + Le(s.sessionId, 4)
    + [s.platformId, s.traceLevel, 0, 0] + s.buildId
  }

  function DecodeSession(b: seq<Byte>): Session
    requires |b| == SESSION_SIZE
  {
    Session(LeValue(b[..4]), LeValue(b[4..8]), LeValue(b[8..16]), LeValue(b[16..20]), b[20], b[21], b[24..40])
  }

  lemma Fields(a: seq<Byte>, b: seq<Byte>, c: seq<Byte>, d: seq<Byte>, e: seq<Byte>, f: seq<Byte>)
    requires |a| == |b| == |d| == |e| == 4 && |c| == 8 && |f| == 16
    ensures var all := a + b + c + d + e + f;
            all[..4] == a && all[4..8] == b && all[8..16] == c && all[16..20] == d && all[20..24] == e && all[24..40] == f
  {}

  lemma SessionRoundTrip(s: Session)
    requires SessionOk(s)
    ensures DecodeSession(EncodeSession(s)) == s
  {
    var flags: seq<Byte> := [s.platformId, s.traceLevel, 0, 0];
    var b := EncodeSession(s);
    Fields(Le(s.deviceId, 4), Le(s.fwVersion, 4), Le(s.timestampBase, 8), Le(s.sessionId, 4), flags, s.buildId);
    assert b[20] == b[20..24][0] && b[21] == b[20..24][1];
    FitsBounds(s.deviceId);
    FitsBounds(s.fwVersion);
    FitsBounds(s.sessionId);
    LeRoundTrip(s.deviceId, 4);
    LeRoundTrip(s.fwVersion, 4);
    LeRoundTrip(s.timestampBase, 8);
    LeRoundTrip(s.sessionId, 4);
  }

  // ---------------------------------------------------------------- the writer's format

  function TlvHeader(kind: nat, length: nat): (b: seq<Byte>)
    ensures |b| == TLV_HDR_SIZE
  {
    Le(kind, 2) + Le(length, 2)
  }

  function FileHeader(): (b: seq<Byte>)
    ensures |b| == FILE_HDR_SIZE
  {
    [0x49, 0x51, 0x54, 0x52, 1, 0, 0, 0]
  }

  /** Everything before the first event. */
  function Preamble(s: Session): (b: seq<Byte>)
    requires |s.buildId| == 16
    ensures |b| == FILE_HDR_SIZE + TLV_HDR_SIZE + SESSION_SIZE
  {
    FileHeader() + TlvHeader(TLV_SESSION, SESSION_SIZE) + EncodeSession(s)
  }

  function EventRecord(e: Event): (b: seq<Byte>)
    ensures |b| == TLV_HDR_SIZE + EVENT_SIZE
  {
    TlvHeader(TLV_EVENT, EVENT_SIZE) + EncodeEvent(e)
  }

  function Body(events: seq<Event>): seq<Byte> {
    if events == [] then [] else EventRecord(events[0]) + Body(events[1..])
  }

  function StreamEnd(): seq<Byte> {
    TlvHeader(TLV_STREAM_END, 0)
  }

  /** A capture that was closed. */
  function Closed(s: Session, events: seq<Event>): seq<Byte>
    requires |s.buildId| == 16
  {
    Preamble(s) + Body(events) + StreamEnd()
  }

  lemma {:induction false} BodyAppend(events: seq<Event>, e: Event)
    ensures Body(events + [e]) == Body(events) + EventRecord(e)
  {
    if events == [] {
      assert events + [e] == [e];
    } else {
      assert (events + [e])[1..] == events[1..] + [e];
      BodyAppend(events[1..], e);
    }
  }

  // ---------------------------------------------------------------- the Python parser

  datatype Record = Record(kind: nat, payload: seq<Byte>)

  function Slice(data: seq<Byte>, lo: nat, hi: nat): seq<Byte>
    requires lo <= hi
  {
    if lo >= |data| then [] else if hi >= |data| then data[lo..] else data[lo..hi]
  }

  /** The records of data from offset on, up to STREAM_END or the last whole TLV header. */
  function RecordsFrom(data: seq<Byte>, offset: nat): seq<Record>
    decreases if offset <= |data| then |data| - offset else 0
  {
    if offset + TLV_HDR_SIZE > |data| then []
    else
      var kind, length := LeValue(data[offset..offset + 2]), LeValue(data[offset + 2..offset + 4]);
      var start := offset + TLV_HDR_SIZE;
      if kind == TLV_STREAM_END then []
      else [Record(kind, Slice(data, start, start + length))] + RecordsFrom(data, start + length)
  }

  /** What one record contributes to the event list. */
  function EventsOf(r: Record): seq<Event> {
    if r.kind == TLV_EVENT then
      if |r.payload| == EVENT_SIZE then [DecodeEvent(r.payload)] else []
    else if r.kind == TLV_EVENT_BATCH && |r.payload| >= 2 then
      BatchEvents(r.payload, LeValue(r.payload[..2]))
    else []
  }

  /** The first n events of a batch that lie wholly inside the payload. */
  function BatchEvents(payload: seq<Byte>, n: nat): seq<Event> {
    if n == 0 then []
    else
      var start := 2 + (n - 1) * EVENT_SIZE;
      BatchEvents(payload, n - 1)
      + if start + EVENT_SIZE <= |payload| then [DecodeEvent(payload[start..start + EVENT_SIZE])] else []
  }

  function EventsOfAll(records: seq<Record>): seq<Event> {
    if records == [] then [] else EventsOf(records[0]) + EventsOfAll(records[1..])
  }

  /** parse_events; None where Python raises because the SESSION header is missing. */
  function ParseEvents(data: seq<Byte>): Option<seq<Event>> {
    if |data| < FILE_HDR_SIZE + TLV_HDR_SIZE then None
    else
      var length := LeValue(data[FILE_HDR_SIZE + 2..FILE_HDR_SIZE + 4]);
      Some(EventsOfAll(RecordsFrom(data, FILE_HDR_SIZE + TLV_HDR_SIZE + length)))
  }

  /** parse_session; None where Python raises. */
  function ParseSession(data: seq<Byte>): Option<Session> {
    if |data| < FILE_HDR_SIZE + TLV_HDR_SIZE || data[..4] != FileHeader()[..4] || LeValue(data[4..6]) != 1
       || LeValue(data[8..10]) != TLV_SESSION || LeValue(data[10..12]) != SESSION_SIZE
       || |data| < FILE_HDR_SIZE + TLV_HDR_SIZE + SESSION_SIZE
    then None
    else Some(DecodeSession(data[12..52]))
  }

  /** What the Python tool shows of a session: the version in three parts, and the build id as text. */
  datatype Shown = Shown(
    deviceId: U32,
    version: (nat, nat, nat),
    timestampBase: nat,
    sessionId: U32,
    platformId: Byte,
    traceLevel: Byte,
    buildId: seq<nat>)

  /** bytes.rstrip of NULs. */
  function Stripped(b: seq<Byte>): seq<Byte> {
    if b != [] && b[|b| - 1] == 0 then Stripped(b[..|b| - 1]) else b
  }

  /** Decoding as ASCII with replacement. */
  function Decoded(b: seq<Byte>): (text: seq<nat>) {
    seq(|b|, i requires 0 <= i < |b| => CodePoint(b[i]))
  }

  function CodePoint(b: Byte): nat {
    if b < 128 then b else 0xFFFD
  }

  function Show(s: Session): Shown {
    Shown(s.deviceId, (s.fwVersion / 0x1_0000, s.fwVersion / 0x100 % 0x100, s.fwVersion % 0x100),
          s.timestampBase, s.sessionId, s.platformId, s.traceLevel, Decoded(Stripped(s.buildId)))
  }

  predicate Ascii(b: seq<Byte>) {
    forall i :: 0 <= i < |b| ==> b[i] < 128
  }

  lemma {:induction false} StrippedParts(b: seq<Byte>)
    ensures Stripped(b) <= b
    ensures forall i :: |Stripped(b)| <= i < |b| ==> b[i] == 0
  {
    if b != [] && b[|b| - 1] == 0 {
      StrippedParts(b[..|b| - 1]);
    }
  }

  lemma DecodedExact(a: seq<Byte>, b: seq<Byte>)
    requires Ascii(a) && Ascii(b) && Decoded(a) == Decoded(b)
    ensures a == b
  {
    assert |Decoded(a)| == |Decoded(b)|;
    forall i | 0 <= i < |a|
      ensures a[i] == b[i]
    {
      assert Decoded(a)[i] == Decoded(b)[i];
    }
  }

  /** Nothing is lost in what is shown, as long as the build id is ASCII. */
  lemma ShowExact(s: Session, t: Session)
    requires SessionOk(s) && SessionOk(t) && Ascii(s.buildId) && Ascii(t.buildId)
    requires Show(s) == Show(t)
    ensures s == t
  {
    StrippedParts(s.buildId);
    StrippedParts(t.buildId);
    DecodedExact(Stripped(s.buildId), Stripped(t.buildId));
    SamePadding(s.buildId, t.buildId, |Stripped(s.buildId)|);
    VersionParts(s.fwVersion);
    VersionParts(t.fwVersion);
  }

  lemma SamePadding(a: seq<Byte>, b: seq<Byte>, n: nat)
    requires |a| == |b| && n <= |a| && a[..n] == b[..n]
    requires forall i :: n <= i < |a| ==> a[i] == 0 && b[i] == 0
    ensures a == b
  {
    forall i | 0 <= i < |a|
      ensures a[i] == b[i]
    {
      if i < n {
        assert a[..n][i] == b[..n][i];
      }
    }
  }

  lemma VersionParts(v: nat)
    ensures v == 0x1_0000 * (v / 0x1_0000) + 0x100 * (v / 0x100 % 0x100) + v % 0x100
  {
    assert v / 0x1_0000 == v / 0x100 / 0x100;
  }

  method ReadBatch(payload: seq<Byte>) returns (events: seq<Event>)
    requires |payload| >= 2
    ensures events == BatchEvents(payload, LeValue(payload[..2]))
  {
    events := [];
    var count := LeValue(payload[..2]);
    for i := 0 to count
      invariant events == BatchEvents(payload, i)
    {
      var start := 2 + i * EVENT_SIZE;
      if start + EVENT_SIZE <= |payload| {
        events := events + [DecodeEvent(payload[start..start + EVENT_SIZE])];
      }
    }
  }

  /** What parse_events does with one record. */
  method ReadRecord(r: Record) returns (events: seq<Event>)
    ensures events == EventsOf(r)
  {
    events := [];
    if r.kind == TLV_EVENT {
      if |r.payload| == EVENT_SIZE {
        events := [DecodeEvent(r.payload)];
      }
    } else if r.kind == TLV_EVENT_BATCH {
      if |r.payload| >= 2 {
        events := ReadBatch(r.payload);
      }
    }
  }

  /** The events of the records from offset on. */
  ghost function EventsFrom(data: seq<Byte>, offset: nat): seq<Event> {
    EventsOfAll(RecordsFrom(data, offset))
  }

  lemma EventsOfCons(r: Record, rest: seq<Record>)
    ensures EventsOfAll([r] + rest) == EventsOf(r) + EventsOfAll(rest)
  {
    assert ([r] + rest)[1..] == rest;
  }

  lemma NoMoreEvents(data: seq<Byte>, offset: nat)
    requires offset + TLV_HDR_SIZE > |data|
    ensures EventsFrom(data, offset) == []
  {}

  lemma StreamEndStops(data: seq<Byte>, offset: nat)
    requires offset + TLV_HDR_SIZE <= |data|
    requires LeValue(data[offset..offset + 2]) == TLV_STREAM_END
    ensures EventsFrom(data, offset) == []
  {}

  lemma EventsStep(data: seq<Byte>, offset: nat, kind: nat, length: nat)
    requires offset + TLV_HDR_SIZE <= |data|
    requires kind == LeValue(data[offset..offset + 2]) != TLV_STREAM_END
    requires length == LeValue(data[offset + 2..offset + 4])
    ensures var start := offset + TLV_HDR_SIZE;
            EventsFrom(data, offset) ==
            EventsOf(Record(kind, Slice(data, start, start + length))) + EventsFrom(data, start + length)
  {
    var start := offset + TLV_HDR_SIZE;
    var record, rest := Record(kind, Slice(data, start, start + length)), RecordsFrom(data, start + length);
    assert RecordsFrom(data, offset) == [record] + rest;
    EventsOfCons(record, rest);
  }

  lemma Regroup<T>(a: seq<T>, b: seq<T>, c: seq<T>)
    ensures a + (b + c) == (a + b) + c
  {}

  lemma ReadStep(data: seq<Byte>, offset: nat, kind: nat, length: nat, found: seq<Event>)
    requires offset + TLV_HDR_SIZE <= |data|
    requires kind == LeValue(data[offset..offset + 2]) != TLV_STREAM_END
    requires length == LeValue(data[offset + 2..offset + 4])
    ensures var start := offset + TLV_HDR_SIZE;
            found + EventsFrom(data, offset) ==
            (found + EventsOf(Record(kind, Slice(data, start, start + length)))) + EventsFrom(data, start + length)
  {
    var start := offset + TLV_HDR_SIZE;
    EventsStep(data, offset, kind, length);
    Regroup(found, EventsOf(Record(kind, Slice(data, start, start + length))), EventsFrom(data, start + length));
  }

  /** The loop of _iter_tlv_records after the SESSION record, with what parse_events does per record. */
  method ReadFrom(data: seq<Byte>, begin: nat) returns (events: seq<Event>)
    ensures events == EventsFrom(data, begin)
  {
    var offset := begin;
    ghost var all := EventsFrom(data, begin);
    events := [];
    while offset + TLV_HDR_SIZE <= |data|
      invariant events + EventsFrom(data, offset) == all
      decreases |data| - offset
    {
      var kind, length := LeValue(data[offset..offset + 2]), LeValue(data[offset + 2..offset + 4]);
      var start := offset + TLV_HDR_SIZE;
      if kind == TLV_STREAM_END {
        StreamEndStops(data, offset);
        assert events + [] == events;
        return;
      }
      var record := Record(kind, Slice(data, start, start + length));
      ReadStep(data, offset, kind, length, events);
      var more := ReadRecord(record);
      events := events + more;
      offset := start + length;
    }
    NoMoreEvents(data, offset);
    assert events + [] == events;
  }

  /** parse_events. */
  method ReadEvents(data: seq<Byte>) returns (events: Option<seq<Event>>)
    ensures events == ParseEvents(data)
  {
    if |data| < FILE_HDR_SIZE + TLV_HDR_SIZE {
      return None;
    }
    var length := LeValue(data[FILE_HDR_SIZE + 2..FILE_HDR_SIZE + 4]);
    var found := ReadFrom(data, FILE_HDR_SIZE + TLV_HDR_SIZE + length);
    events := Some(found);
  }

  // ---------------------------------------------------------------- reading what was written

  lemma HeaderReads(kind: nat, length: nat, rest: seq<Byte>)
    requires kind < 0x1_0000 && length < 0x1_0000
    ensures LeValue((TlvHeader(kind, length) + rest)[..2]) == kind
    ensures LeValue((TlvHeader(kind, length) + rest)[2..4]) == length
  {
    var b := TlvHeader(kind, length) + rest;
    assert b[..2] == Le(kind, 2) && b[2..4] == Le(length, 2);
    FitsBounds(kind);
    FitsBounds(length);
    LeRoundTrip(kind, 2);
    LeRoundTrip(length, 2);
  }

  function Min(a: nat, b: nat): nat {
    if a < b then a else b
  }

  /** data is the first |data| bytes of before + rest. */
  ghost predicate CutOf(data: seq<Byte>, before: seq<Byte>, rest: seq<Byte>) {
    |before| <= |data| <= |before| + |rest| && data == (before + rest)[..|data|]
  }

  lemma CutSlice(data: seq<Byte>, before: seq<Byte>, rest: seq<Byte>, lo: nat, hi: nat)
    requires CutOf(data, before, rest) && lo <= hi && |before| + hi <= |data|
    ensures data[|before| + lo..|before| + hi] == rest[lo..hi]
  {
    assert |data[|before| + lo..|before| + hi]| == |rest[lo..hi]|;
    forall i | 0 <= i < hi - lo
      ensures data[|before| + lo..|before| + hi][i] == rest[lo..hi][i]
    {
      assert data[|before| + lo + i] == (before + rest)[|before| + (lo + i)] == rest[lo + i];
    }
  }

  lemma HeaderAt(data: seq<Byte>, before: seq<Byte>, kind: nat, length: nat, rest: seq<Byte>)
    requires kind < 0x1_0000 && length < 0x1_0000
    requires CutOf(data, before, TlvHeader(kind, length) + rest) && |before| + TLV_HDR_SIZE <= |data|
    ensures var offset := |before|; LeValue(data[offset..offset + 2]) == kind && LeValue(data[offset + 2..offset + 4]) == length
  {
    HeaderReads(kind, length, rest);
    CutSlice(data, before, TlvHeader(kind, length) + rest, 0, 2);
    CutSlice(data, before, TlvHeader(kind, length) + rest, 2, 4);
  }

  lemma PayloadAt(data: seq<Byte>, before: seq<Byte>, header: seq<Byte>, payload: seq<Byte>, rest: seq<Byte>)
    requires CutOf(data, before, header + (payload + rest)) && |before| + |header| + |payload| <= |data|
    ensures data[|before| + |header|..|before| + (|header| + |payload|)] == payload
  {
    var tail := header + (payload + rest);
    CutSlice(data, before, tail, |header|, |header| + |payload|);
    assert tail[|header|..|header| + |payload|] == payload;
  }

  lemma RecordHolds(e: Event, payload: seq<Byte>)
    ensures EventsOf(Record(TLV_EVENT, EncodeEvent(e))) == [e]
    ensures |payload| < EVENT_SIZE ==> EventsOf(Record(TLV_EVENT, payload)) == []
  {
    EventRoundTrip(e);
  }

  lemma SliceOf(data: seq<Byte>, lo: nat, hi: nat)
    requires lo <= hi
    ensures hi <= |data| ==> Slice(data, lo, hi) == data[lo..hi]
    ensures |data| < hi ==> |Slice(data, lo, hi)| < hi - lo || |Slice(data, lo, hi)| == 0
  {}

  lemma EventHeader(data: seq<Byte>, before: seq<Byte>, e: Event, rest: seq<Byte>)
    requires CutOf(data, before, EventRecord(e) + rest) && |before| + TLV_HDR_SIZE <= |data|
    ensures var start, next := |before| + 4, |before| + 18;
            EventsFrom(data, |before|) == EventsOf(Record(TLV_EVENT, Slice(data, start, next))) + EventsFrom(data, next)
  {
    Regroup(TlvHeader(TLV_EVENT, EVENT_SIZE), EncodeEvent(e), rest);
    HeaderAt(data, before, TLV_EVENT, EVENT_SIZE, EncodeEvent(e) + rest);
    EventsStep(data, |before|, TLV_EVENT, EVENT_SIZE);
  }

  lemma EventPayload(data: seq<Byte>, before: seq<Byte>, e: Event, rest: seq<Byte>)
    requires CutOf(data, before, EventRecord(e) + rest) && |before| + TLV_HDR_SIZE <= |data|
    ensures var payload := Slice(data, |before| + 4, |before| + 18);
            if |before| + 18 <= |data| then payload == EncodeEvent(e) else |payload| < EVENT_SIZE
  {
    Regroup(TlvHeader(TLV_EVENT, EVENT_SIZE), EncodeEvent(e), rest);
    CutPayload(data, before, TlvHeader(TLV_EVENT, EVENT_SIZE), EncodeEvent(e), rest);
  }

  lemma CutPayload(data: seq<Byte>, before: seq<Byte>, header: seq<Byte>, payload: seq<Byte>, rest: seq<Byte>)
    requires |header| == TLV_HDR_SIZE && |payload| == EVENT_SIZE && CutOf(data, before, header + (payload + rest))
    ensures var held := Slice(data, |before| + 4, |before| + 18);
            if |before| + 18 <= |data| then held == payload else |held| < EVENT_SIZE
  {
    SliceOf(data, |before| + 4, |before| + 18);
    if |before| + 18 <= |data| {
      PayloadAt(data, before, header, payload, rest);
    }
  }

  lemma EventRecordReads(data: seq<Byte>, before: seq<Byte>, e: Event, rest: seq<Byte>)
    requires CutOf(data, before, EventRecord(e) + rest) && |before| + TLV_HDR_SIZE <= |data|
    ensures var next := |before| + 18;
            EventsFrom(data, |before|) == if next <= |data| then [e] + EventsFrom(data, next) else []
  {
    EventHeader(data, before, e, rest);
    EventPayload(data, before, e, rest);
    RecordHolds(e, Slice(data, |before| + 4, |before| + 18));
    if |before| + 18 > |data| {
      NoMoreEvents(data, |before| + 18);
    }
  }

  /** The number of whole event records in n bytes, at most count. */
  function Whole(count: nat, n: nat): nat {
    Min(count, n / 18)
  }

  lemma OneMoreEvent(events: seq<Event>, rest: seq<Event>, n: nat, next: int, whole: seq<Event>, more: seq<Event>)
    requires events != [] && rest == events[1..] && next == n - 18
    requires next < 0 ==> whole == []
    requires next >= 0 ==> whole == [events[0]] + more && more == rest[..Whole(|rest|, next)]
    ensures whole == events[..Whole(|events|, n)]
  {
    if next >= 0 {
      assert Whole(|events|, n) == Whole(|rest|, next) + 1;
    }
  }

  lemma CutMoves(data: seq<Byte>, before: seq<Byte>, record: seq<Byte>, rest: seq<Byte>)
    requires CutOf(data, before, record + rest) && |before| + |record| <= |data|
    ensures CutOf(data, before + record, rest)
  {
    Regroup(before, record, rest);
  }

  /** Cutting event records, with or without STREAM_END, at any byte keeps the events whose records are whole. */
  lemma {:induction false} EventsOfCut(data: seq<Byte>, before: seq<Byte>, events: seq<Event>)
    requires CutOf(data, before, Body(events) + StreamEnd())
    ensures EventsFrom(data, |before|) == events[..Whole(|events|, |data| - |before|)]
    decreases |events|
  {
    if |before| + TLV_HDR_SIZE > |data| {
      NoMoreEvents(data, |before|);
    } else if events == [] {
      assert Body(events) + StreamEnd() == TlvHeader(TLV_STREAM_END, 0) + [];
      HeaderAt(data, before, TLV_STREAM_END, 0, []);
      StreamEndStops(data, |before|);
    } else {
      var record, rest, next := EventRecord(events[0]), events[1..], |before| + 18;
      Regroup(record, Body(rest), StreamEnd());
      EventRecordReads(data, before, events[0], Body(rest) + StreamEnd());
      if next <= |data| {
        CutMoves(data, before, record, Body(rest) + StreamEnd());
        EventsOfCut(data, before + record, rest);
        assert |before + record| == next;
      }
      OneMoreEvent(events, rest, |data| - |before|, |data| - next, EventsFrom(data, |before|), EventsFrom(data, next));
    }
  }

  lemma PreambleParts(h: seq<Byte>, t: seq<Byte>, p: seq<Byte>)
    requires |h| == 8 && |t| == 4 && |p| == 40
    ensures var all := h + t + p;
            all[..4] == h[..4] && all[4..6] == h[4..6] && all[8..10] == t[..2] && all[10..12] == t[2..4] && all[12..52] == p
  {}

  lemma SessionLength(s: Session, data: seq<Byte>)
    requires |s.buildId| == 16
    requires 12 <= |data| && (data <= Preamble(s) || Preamble(s) <= data)
    ensures LeValue(data[8..10]) == TLV_SESSION && LeValue(data[10..12]) == SESSION_SIZE
  {
    var t := TlvHeader(TLV_SESSION, SESSION_SIZE);
    HeaderReads(TLV_SESSION, SESSION_SIZE, []);
    assert t + [] == t;
    PreambleParts(FileHeader(), t, EncodeSession(s));
    assert data[8..10] == Preamble(s)[8..10];
    assert data[10..12] == Preamble(s)[10..12];
  }

  lemma HeaderAccepted(s: Session, data: seq<Byte>)
    requires SessionOk(s) && Preamble(s) <= data
    ensures ParseSession(data) == Some(s)
  {
    PreambleParts(FileHeader(), TlvHeader(TLV_SESSION, SESSION_SIZE), EncodeSession(s));
    SessionLength(s, data);
    assert data[..4] == Preamble(s)[..4];
    assert data[4..6] == Preamble(s)[4..6] == [1, 0];
    assert LeValue([1, 0]) == 1 + 256 * LeValue([0]);
    assert data[12..52] == Preamble(s)[12..52];
    SessionRoundTrip(s);
  }

  /** A trace cut after any number of bytes from 12 on reads back as the events whose records are whole. */
  lemma CutTraceReads(s: Session, events: seq<Event>, data: seq<Byte>)
    requires |s.buildId| == 16
    requires 12 <= |data| && data <= Closed(s, events)
    ensures ParseEvents(data) == Some(events[..Whole(|events|, if |data| < 52 then 0 else |data| - 52)])
  {
    var head, tail := Preamble(s), Body(events) + StreamEnd();
    Regroup(head, Body(events), StreamEnd());
    assert data == (head + tail)[..|data|];
    if |data| < 52 {
      assert data == head[..|data|];
      SessionLength(s, data);
      NoMoreEvents(data, 52);
    } else {
      assert head == data[..52];
      SessionLength(s, data);
      EventsOfCut(data, head, events);
    }
  }

  lemma {:induction false} BodyLength(events: seq<Event>)
    ensures |Body(events)| == |events| * (TLV_HDR_SIZE + EVENT_SIZE)
  {
    if events != [] {
      BodyLength(events[1..]);
    }
  }

  lemma AllWhole(events: seq<Event>, n: nat)
    requires n >= |events| * 18
    ensures events[..Whole(|events|, n)] == events
  {}

  lemma WholeTraceReads(s: Session, events: seq<Event>, data: seq<Byte>)
    requires |s.buildId| == 16
    requires data == Closed(s, events) || data == Preamble(s) + Body(events)
    ensures ParseEvents(data) == Some(events)
  {
    BodyLength(events);
    assert data <= Closed(s, events);
    CutTraceReads(s, events, data);
    AllWhole(events, |data| - 52);
  }

  /** A closed trace, and one whose STREAM_END is missing, read back as exactly the events written. */
  lemma TraceRoundTrip(s: Session, events: seq<Event>)
    requires SessionOk(s)
    ensures ParseEvents(Closed(s, events)) == Some(events)
    ensures ParseEvents(Preamble(s) + Body(events)) == Some(events)
    ensures ParseSession(Closed(s, events)) == Some(s)
  {
    WholeTraceReads(s, events, Closed(s, events));
    WholeTraceReads(s, events, Preamble(s) + Body(events));
    Regroup(Preamble(s), Body(events), StreamEnd());
    HeaderAccepted(s, Closed(s, events));
  }
}
