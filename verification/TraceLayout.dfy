/** Where the fields of the trace format stand (docs/observability/iqtrace_format.md, sections 3 to 5): the offsets of
    the documented structures, all numbers little-endian. */
module TraceLayout {
  import opened Words
  import opened Wrappers
  import opened TraceFormat

  /** The little-endian number in two, four or eight bytes from an offset. */
  function Two(b: seq<Byte>, at: nat): int
    requires at + 2 <= |b|
  {
    b[at] as int + 0x100 * b[at + 1] as int
  }

  function Four(b: seq<Byte>, at: nat): int
    requires at + 4 <= |b|
  {
    Two(b, at) + 0x1_0000 * Two(b, at + 2)
  }

  function Eight(b: seq<Byte>, at: nat): int
    requires at + 8 <= |b|
  {
    Four(b, at) + 0x1_0000_0000 * Four(b, at + 4)
  }

  lemma NextByte(n: nat, width: nat)
    requires width > 0
    ensures Le(n, width)[0] == n % 256 && Le(n, width)[1..] == Le(n / 256, width - 1)
  {}

  lemma LeTwo(n: nat, width: nat)
    requires 2 <= width
    ensures Two(Le(n, width), 0) == n % 0x1_0000
    ensures Le(n, width)[2..] == Le(n / 0x1_0000, width - 2)
  {
    NextByte(n, width);
    NextByte(n / 256, width - 1);
    assert Le(n, width)[1] == Le(n, width)[1..][0];
    assert Le(n, width)[2..] == Le(n, width)[1..][1..];
    assert n / 256 / 256 == n / 0x1_0000;
  }

  lemma LeFour(n: nat, width: nat)
    requires 4 <= width
    ensures Four(Le(n, width), 0) == n % 0x1_0000_0000
    ensures Le(n, width)[4..] == Le(n / 0x1_0000_0000, width - 4)
  {
    var m := n / 0x1_0000;
    LeTwo(n, width);
    LeTwo(m, width - 2);
    Moved(Le(n, width), 2);
    assert Le(n, width)[4..] == Le(n, width)[2..][2..];
    assert m / 0x1_0000 == n / 0x1_0000_0000;
  }

  lemma Halves(n: nat)
    requires n < 0x1_0000_0000_0000_0000
    ensures var high := n / 0x1_0000_0000; high % 0x1_0000_0000 == high && n % 0x1_0000_0000 + 0x1_0000_0000 * high == n
  {}

  lemma TwoFours(b: seq<Byte>)
    requires 8 <= |b|
    ensures Eight(b, 0) == Four(b, 0) + 0x1_0000_0000 * Four(b[4..], 0)
  {
    Moved(b, 4);
  }

  lemma LeEight(n: nat, width: nat)
    requires 8 <= width && n < 0x1_0000_0000_0000_0000
    ensures Eight(Le(n, width), 0) == n
  {
    LeFour(n, width);
    LeFour(n / 0x1_0000_0000, width - 4);
    TwoFours(Le(n, width));
    Halves(n);
  }

  lemma Moved(b: seq<Byte>, at: nat)
    requires at <= |b|
    ensures at + 2 <= |b| ==> Two(b, at) == Two(b[at..], 0)
    ensures at + 4 <= |b| ==> Four(b, at) == Four(b[at..], 0)
    ensures at + 8 <= |b| ==> Eight(b, at) == Eight(b[at..], 0)
  {}

  /** The fields of a structure. */
  lemma FieldTwo(b: seq<Byte>, at: nat, n: nat, width: nat)
    requires 1 < width < 3 && at + width <= |b| && b[at..at + width] == Le(n, width) && n < 0x1_0000
    ensures Two(b, at) == n
  {
    LeTwo(n, width);
    assert Two(b, at) == Two(b[at..at + width], 0);
  }

  lemma FieldFour(b: seq<Byte>, at: nat, n: nat, width: nat)
    requires 3 < width < 5 && at + width <= |b| && b[at..at + width] == Le(n, width) && n < 0x1_0000_0000
    ensures Four(b, at) == n
  {
    LeFour(n, width);
    assert Four(b, at) == Four(b[at..at + width], 0);
  }

  lemma FieldEight(b: seq<Byte>, at: nat, n: nat, width: nat)
    requires 7 < width < 9 && at + width <= |b| && b[at..at + width] == Le(n, width) && n < 0x1_0000_0000_0000_0000
    ensures Eight(b, at) == n
  {
    LeEight(n, width);
    assert Eight(b, at) == Eight(b[at..at + width], 0);
  }

  /** The runtime event record, 14 bytes. */
  lemma EventLayout(e: Event)
    ensures var b := EncodeEvent(e);
            && |b| == 14
            && b[0] == e.eventType && b[1] == e.source && b[2] == e.target && b[3] == e.state
            && Two(b, 4) == e.msgId && Four(b, 6) == e.timestamp && Four(b, 10) == e.sequence
  {
    var b, head: seq<Byte> := EncodeEvent(e), [e.eventType, e.source, e.target, e.state];
    EventFields(head, Le(e.msgId, 2), Le(e.timestamp, 4), Le(e.sequence, 4));
    assert b[..4][0] == b[0] && b[..4][1] == b[1] && b[..4][2] == b[2] && b[..4][3] == b[3];
    FieldTwo(b, 4, e.msgId, 2);
    FieldFour(b, 6, e.timestamp, 4);
    FieldFour(b, 10, e.sequence, 4);
  }

  /** The session record, 40 bytes. */
  lemma SessionLayout(s: Session)
    requires SessionOk(s) && s.timestampBase < 0x1_0000_0000_0000_0000
    ensures var b := EncodeSession(s);
            && |b| == 40
            && Four(b, 0) == s.deviceId && Four(b, 4) == s.fwVersion && Eight(b, 8) == s.timestampBase && Four(b, 16) == s.sessionId
            && b[20] == s.platformId && b[21] == s.traceLevel && b[22] == b[23] == 0 && b[24..40] == s.buildId
  {
    var b, flags: seq<Byte> := EncodeSession(s), [s.platformId, s.traceLevel, 0, 0];
    Fields(Le(s.deviceId, 4), Le(s.fwVersion, 4), Le(s.timestampBase, 8), Le(s.sessionId, 4), flags, s.buildId);
    assert b[20..24][0] == b[20] && b[20..24][1] == b[21] && b[20..24][2] == b[22] && b[20..24][3] == b[23];
    FieldFour(b, 0, s.deviceId, 4);
    FieldFour(b, 4, s.fwVersion, 4);
    FieldEight(b, 8, s.timestampBase, 8);
    FieldFour(b, 16, s.sessionId, 4);
  }

  /** The record envelope, and the kinds of record. */
  lemma EnvelopeLayout(kind: nat, length: nat)
    requires kind < 0x1_0000 && length < 0x1_0000
    ensures var b := TlvHeader(kind, length); |b| == 4 && Two(b, 0) == kind && Two(b, 2) == length
    ensures TLV_SESSION == 1 && TLV_EVENT == 2 && TLV_EVENT_BATCH == 3 && TLV_STREAM_END == 4
  {
    var b := TlvHeader(kind, length);
    assert b[0..2] == Le(kind, 2) && b[2..4] == Le(length, 2);
    FieldTwo(b, 0, kind, 2);
    FieldTwo(b, 2, length, 2);
  }

  lemma Magic()
    ensures var h := FileHeader();
            && h[0] == 'I' as int && h[1] == 'Q' as int && h[2] == 'T' as int && h[3] == 'R' as int
            && h[4] == 1 && h[5] == h[6] == h[7] == 0
  {}

  lemma ThreeParts(a: seq<Byte>, h: seq<Byte>, e: seq<Byte>)
    requires |a| == 8 && |h| == 4
    ensures var b := a + h + e;
            (forall i :: 0 <= i < 8 ==> b[i] == a[i]) && Two(b, 8) == Two(h, 0) && Two(b, 10) == Two(h, 2) && b[12..] == e
  {}

  /** A file starts with its magic, the version of the format and three zero bytes, and then the session record. */
  lemma FileLayout(s: Session)
    requires |s.buildId| == 16
    ensures var b := Preamble(s);
            && |b| == 52
            && b[0] == 'I' as int && b[1] == 'Q' as int && b[2] == 'T' as int && b[3] == 'R' as int
            && b[4] == 1 && b[5] == b[6] == b[7] == 0
            && Two(b, 8) == 1 && Two(b, 10) == 40 && b[12..] == EncodeSession(s)
  {
    Magic();
    EnvelopeLayout(TLV_SESSION, SESSION_SIZE);
    ThreeParts(FileHeader(), TlvHeader(TLV_SESSION, SESSION_SIZE), EncodeSession(s));
  }

  /** What parse_session shows of the firmware version: major above bit 16, minor in bits 8 to 15, patch below. */
  lemma VersionLayout(s: Session)
    ensures var (major, minor, patch) := Show(s).version;
            s.fwVersion == 0x1_0000 * major + 0x100 * minor + patch && minor < 0x100 && patch < 0x100
  {
    assert s.fwVersion / 0x1_0000 == s.fwVersion / 0x100 / 0x100;
  }

  /** Everything else is shown as stored; of the build id, the bytes before the padding, with U+FFFD for what is not ASCII. */
  lemma ShownAsStored(s: Session)
    requires SessionOk(s)
    ensures var shown := Show(s);
            && shown.deviceId == s.deviceId && shown.timestampBase == s.timestampBase && shown.sessionId == s.sessionId
            && shown.platformId == s.platformId && shown.traceLevel == s.traceLevel
            && |shown.buildId| <= 16
            && (forall i :: 0 <= i < |shown.buildId| ==> shown.buildId[i] == if s.buildId[i] < 128 then s.buildId[i] else 0xFFFD)
            && (forall i :: |shown.buildId| <= i < 16 ==> s.buildId[i] == 0)
            && (shown.buildId != [] ==> s.buildId[|shown.buildId| - 1] != 0)
  {
    StrippedParts(s.buildId);
    StrippedEnd(s.buildId);
  }

  lemma {:induction false} StrippedEnd(b: seq<Byte>)
    ensures var r := Stripped(b); r != [] ==> r[|r| - 1] != 0
  {
    if b != [] && b[|b| - 1] == 0 {
      StrippedEnd(b[..|b| - 1]);
    }
  }

  // ---------------------------------------------------------------- records of any kind

  function Packed(events: seq<Event>): (b: seq<Byte>)
    ensures |b| == 14 * |events|
  {
    if events == [] then [] else Packed(events[..|events| - 1]) + EncodeEvent(events[|events| - 1])
  }

  /** A batch gives the events that its count announces, as far as its payload holds them whole. */
  lemma BatchReads(events: seq<Event>, n: nat, tail: seq<Byte>)
    requires |events| <= n < 0x1_0000 && (|events| < n ==> |tail| < 14)
    ensures EventsOf(Record(3, Le(n, 2) + Packed(events) + tail)) == events
  {
    var all := Le(n, 2) + Packed(events) + tail;
    assert all[..2] == Le(n, 2);
    FitsBounds(n);
    LeRoundTrip(n, 2);
    PackedReads(all, |events|, events, Le(n, 2), tail);
    NoneBeyond(all, |events|, n);
  }

  /** An event record of the right length gives its event; a record of any other kind, and one that is too short, none. */
  lemma OtherReads(e: Event, kind: nat, payload: seq<Byte>)
    ensures EventsOf(Record(2, EncodeEvent(e))) == [e]
    ensures |payload| != 14 ==> EventsOf(Record(2, payload)) == []
    ensures |payload| < 2 ==> EventsOf(Record(3, payload)) == []
    ensures kind != 2 && kind != 3 ==> EventsOf(Record(kind, payload)) == []
  {
    EventRoundTrip(e);
  }

  lemma PackedLast(events: seq<Event>, n: nat) returns (front: seq<Event>, last: Event)
    requires |events| == n + 1
    ensures events == front + [last] && |front| == n && Packed(events) == Packed(front) + EncodeEvent(last)
  {
    front, last := events[..n], events[n];
  }

  lemma {:induction false} PackedReads(payload: seq<Byte>, n: nat, events: seq<Event>, head: seq<Byte>, tail: seq<Byte>)
    requires |head| == 2 && |events| == n && payload == head + Packed(events) + tail
    ensures BatchEvents(payload, n) == events
  {
    if n > 0 {
      var front, last := PackedLast(events, n - 1);
      var b := EncodeEvent(last);
      RegroupedTail(head, Packed(front), b, tail);
      PackedReads(payload, n - 1, front, head, b + tail);
      EventRoundTrip(last);
      LastOfBatch(payload, n, head + Packed(front), b, tail);
    }
  }

  lemma RegroupedTail(a: seq<Byte>, b: seq<Byte>, c: seq<Byte>, d: seq<Byte>)
    ensures a + (b + c) + d == a + b + (c + d)
  {}

  lemma LastOfBatch(payload: seq<Byte>, n: nat, front: seq<Byte>, last: seq<Byte>, tail: seq<Byte>)
    requires n > 0 && |last| == 14 && |front| == 2 + 14 * (n - 1) && payload == front + (last + tail)
    ensures BatchEvents(payload, n) == BatchEvents(payload, n - 1) + [DecodeEvent(last)]
  {
    var at := |front|;
    assert payload[at..at + 14] == last;
  }

  lemma {:induction false} NoneBeyond(payload: seq<Byte>, m: nat, n: nat)
    requires m <= n && (m < n ==> |payload| < 2 + 14 * m + 14)
    ensures BatchEvents(payload, n) == BatchEvents(payload, m)
    decreases n - m
  {
    if m < n {
      NoneBeyond(payload, m, n - 1);
    }
  }

  /** The envelopes of these records, one after the other. */
  function Enveloped(records: seq<Record>): seq<Byte> {
    if records == [] then []
    else TlvHeader(records[0].kind, |records[0].payload|) + records[0].payload + Enveloped(records[1..])
  }

  /** The kind and the length fit their fields, and it is not the end of the stream. */
  predicate Framed(records: seq<Record>) {
    forall k :: 0 <= k < |records| ==>
      records[k].kind < 0x1_0000 && records[k].kind != 4 && |records[k].payload| < 0x1_0000
  }

  lemma EnvelopedFirst(records: seq<Record>) returns (r: Record, rest: seq<Record>)
    requires Framed(records) && records != []
    ensures records == [r] + rest && Framed(rest)
    ensures r.kind < 0x1_0000 && r.kind != 4 && |r.payload| < 0x1_0000
    ensures Enveloped(records) == TlvHeader(r.kind, |r.payload|) + r.payload + Enveloped(rest)
  {
    r, rest := records[0], records[1..];
  }

  lemma ReadsFirst(data: seq<Byte>, before: seq<Byte>, records: seq<Record>)
      returns (r: Record, rest: seq<Record>, next: seq<Byte>)
    requires data == before + Enveloped(records) && Framed(records) && records != []
    ensures records == [r] + rest && Framed(rest) && data == next + Enveloped(rest)
    ensures RecordsFrom(data, |before|) == [r] + RecordsFrom(data, |next|)
  {
    r, rest := EnvelopedFirst(records);
    next := NextRecord(data, before, r, Enveloped(rest));
  }

  lemma ReadsNone(data: seq<Byte>, before: seq<Byte>)
    requires data == before + []
    ensures RecordsFrom(data, |before|) == []
  {}

  /** Records of any kind, known or not, are read one after the other by their length. */
  lemma {:induction false} RecordsReadBack(data: seq<Byte>, before: seq<Byte>, records: seq<Record>)
    requires data == before + Enveloped(records) && Framed(records)
    ensures RecordsFrom(data, |before|) == records
    decreases |records|
  {
    if records == [] {
      ReadsNone(data, before);
    } else {
      var r, rest, next := ReadsFirst(data, before, records);
      RecordsReadBack(data, next, rest);
    }
  }

  lemma Advanced(data: seq<Byte>, before: seq<Byte>, h: seq<Byte>, p: seq<Byte>, rest: seq<Byte>) returns (next: seq<Byte>)
    requires |h| == 4 && data == before + (h + p + rest)
    ensures CutOf(data, before, h + (p + rest)) && data == next + rest && |next| == |before| + 4 + |p|
  {
    next := before + h + p;
    assert h + p + rest == h + (p + rest);
    assert before + (h + p + rest) == before + h + p + rest;
    assert data[..|data|] == data;
  }

  lemma NextRecord(data: seq<Byte>, before: seq<Byte>, r: Record, rest: seq<Byte>) returns (next: seq<Byte>)
    requires r.kind < 0x1_0000 && r.kind != 4 && |r.payload| < 0x1_0000
    requires data == before + (TlvHeader(r.kind, |r.payload|) + r.payload + rest)
    ensures data == next + rest
    ensures RecordsFrom(data, |before|) == [r] + RecordsFrom(data, |next|)
  {
    var h, n := TlvHeader(r.kind, |r.payload|), |r.payload|;
    next := Advanced(data, before, h, r.payload, rest);
    HeaderAt(data, before, r.kind, n, r.payload + rest);
    PayloadAt(data, before, h, r.payload, rest);
    SliceOf(data, |before| + 4, |before| + 4 + n);
  }
}
