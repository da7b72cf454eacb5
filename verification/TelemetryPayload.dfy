/** The bytes of a telemetry batch: what publish_batch copies into a message (fbs/services/fb_telemetry.c) and what a
    subscriber that casts them sees (core/include/embediq_telemetry.h). */
module TelemetryPayload {
  import opened Wrappers
  import opened Telemetry
  import opened TraceFormat

  type FloatBytes = b: seq<Byte> | |b| == 4 witness [0, 0, 0, 0]

  /** How the platform stores a number as a C float. */
  type Floats = real -> FloatBytes

  /** An entry and a batch as their reader sees them. */
  datatype SeenEntry = SeenEntry(
    id: U16, kind: Byte, unit: Byte, count: U16,
    a: FloatBytes, b: FloatBytes, c: FloatBytes)

  datatype SeenBatch = SeenBatch(windowStart: nat, windowDur: nat, flags: Byte, entries: seq<SeenEntry>)

  function KindCode(kind: Kind): Byte {
    match kind
    case GaugeKind => 0
    case CounterKind => 1
    case HistogramKind => 2
  }

  // ---------------------------------------------------------------- the writer

  /** The packed entry: id, kind and unit, three floats, count. */
  function StoreEntry(e: Entry, f: Floats): (b: seq<Byte>)
    ensures |b| == ENTRY_SIZE
  {
    Le(e.id, 2) + [KindCode(e.kind), e.unit] + f(e.a) + f(e.b) + f(e.c) + Le(e.count, 2)
  }

  function StoreEntries(es: seq<Entry>, f: Floats): (b: seq<Byte>)
    ensures |b| == ENTRY_SIZE * |es|
  {
    if es == [] then [] else StoreEntry(es[0], f) + StoreEntries(es[1..], f)
  }

  function StoreHeader(b: Batch): (h: seq<Byte>)
    requires b.entryCount < 256 && b.flags < 256
    ensures |h| == HDR_SIZE
  {
    Le(b.windowStart, 4) + Le(b.windowDur, 2) + [b.entryCount, b.flags]
  }

  function StoreBatch(b: Batch, f: Floats): seq<Byte>
    requires b.entryCount < 256 && b.flags < 256
  {
    StoreHeader(b) + StoreEntries(b.entries, f)
  }

  // ---------------------------------------------------------------- the reader

  function ReadEntry(b: seq<Byte>): SeenEntry
    requires |b| == ENTRY_SIZE
  {
    SeenEntry(LeValue(b[..2]), b[2], b[3], LeValue(b[16..18]), b[4..8], b[8..12], b[12..16])
  }

  /** The bytes after the header as an array of n entries. */
  function ReadEntries(b: seq<Byte>, n: nat): Option<seq<SeenEntry>>
    decreases n
  {
    if n == 0 then Some([])
    else if |b| < ENTRY_SIZE then None
    else
      var rest := ReadEntries(b[ENTRY_SIZE..], n - 1);
      if rest.None? then None else Some([ReadEntry(b[..ENTRY_SIZE])] + rest.value)
  }

  function ReadBatch(b: seq<Byte>): Option<SeenBatch> {
    if |b| < HDR_SIZE then None
    else
      var entries := ReadEntries(b[HDR_SIZE..], b[6]);
      if entries.None? then None
      else Some(SeenBatch(LeValue(b[..4]), LeValue(b[4..6]), b[7], entries.value))
  }

  // ---------------------------------------------------------------- round trips

  function Seen(e: Entry, f: Floats): SeenEntry
    requires e.count <= 0xFFFF
  {
    SeenEntry(e.id, KindCode(e.kind), e.unit, e.count, f(e.a), f(e.b), f(e.c))
  }

  predicate Counted(es: seq<Entry>) {
    forall k :: 0 <= k < |es| ==> es[k].count <= 0xFFFF
  }

  function SeenAll(es: seq<Entry>, f: Floats): seq<SeenEntry>
    requires Counted(es)
  {
    seq(|es|, k requires 0 <= k < |es| => Seen(es[k], f))
  }

  lemma EntryFields(id: seq<Byte>, codes: seq<Byte>, a: seq<Byte>, b: seq<Byte>, c: seq<Byte>, count: seq<Byte>)
    requires |id| == |codes| == |count| == 2 && |a| == |b| == |c| == 4
    ensures var e := id + codes + a + b + c + count;
            && e[..2] == id && e[2] == codes[0] && e[3] == codes[1]
            && e[4..8] == a && e[8..12] == b && e[12..16] == c && e[16..18] == count
  {}

  /** The packed entry at its documented offsets, its numbers little-endian. */
  lemma PackedLayout(e: Entry, f: Floats)
    requires e.count <= 0xFFFF
    ensures var b := StoreEntry(e, f);
            && |b| == 18
            && b[0] as int + 0x100 * b[1] as int == e.id
            && b[2] == (if e.kind.GaugeKind? then 0 else if e.kind.CounterKind? then 1 else 2) && b[3] == e.unit
            && b[4..8] == f(e.a) && b[8..12] == f(e.b) && b[12..16] == f(e.c)
            && b[16] as int + 0x100 * b[17] as int == e.count
  {
    var b := StoreEntry(e, f);
    EntryFields(Le(e.id, 2), [KindCode(e.kind), e.unit], f(e.a), f(e.b), f(e.c), Le(e.count, 2));
    TwoDigits(e.id, 2);
    TwoDigits(e.count, 2);
    assert b[..2][0] == b[0] && b[..2][1] == b[1] && b[16..18][0] == b[16] && b[16..18][1] == b[17];
  }

  lemma TwoDigits(n: nat, width: nat)
    requires 1 < width < 3 && n < 0x1_0000
    ensures Le(n, width)[0] as int + 0x100 * Le(n, width)[1] as int == n
  {
    assert Le(n, width)[1] == Le(n / 256, width - 1)[0];
  }

  lemma EntryRoundTrip(e: Entry, f: Floats)
    requires e.count <= 0xFFFF
    ensures ReadEntry(StoreEntry(e, f)) == Seen(e, f)
  {
    EntryFields(Le(e.id, 2), [KindCode(e.kind), e.unit], f(e.a), f(e.b), f(e.c), Le(e.count, 2));
    FitsBounds(e.id);
    FitsBounds(e.count);
    LeRoundTrip(e.id, 2);
    LeRoundTrip(e.count, 2);
  }

  lemma ReadNext(first: seq<Byte>, rest: seq<Byte>, n: nat)
    requires |first| == ENTRY_SIZE && ReadEntries(rest, n).Some?
    ensures ReadEntries(first + rest, n + 1) == Some([ReadEntry(first)] + ReadEntries(rest, n).value)
  {
    assert (first + rest)[..ENTRY_SIZE] == first && (first + rest)[ENTRY_SIZE..] == rest;
  }

  lemma SeenFirst(es: seq<Entry>, f: Floats)
    requires Counted(es) && es != []
    ensures SeenAll(es, f) == [Seen(es[0], f)] + SeenAll(es[1..], f)
  {}

  lemma {:induction false} PayloadEntriesRoundTrip(es: seq<Entry>, f: Floats)
    requires Counted(es)
    ensures ReadEntries(StoreEntries(es, f), |es|) == Some(SeenAll(es, f))
  {
    if es == [] {
      assert SeenAll(es, f) == [];
    } else {
      SeenFirst(es, f);
      EntryRoundTrip(es[0], f);
      PayloadEntriesRoundTrip(es[1..], f);
      ReadNext(StoreEntry(es[0], f), StoreEntries(es[1..], f), |es| - 1);
    }
  }

  lemma HeaderFields(start: seq<Byte>, dur: seq<Byte>, tail: seq<Byte>, rest: seq<Byte>)
    requires |start| == 4 && |dur| == |tail| == 2
    ensures var b := start + dur + tail + rest;
            b[..4] == start && b[4..6] == dur && b[6] == tail[0] && b[7] == tail[1] && b[8..] == rest
  {}

  /** A subscriber that casts the payload of a batch sees the header and every entry as they were written. */
  lemma BatchRoundTrip(es: seq<Entry>, fault: bool, f: Floats)
    requires |es| <= PER_BATCH && Counted(es)
    ensures var b := MakeBatch(es, fault);
            && |StoreBatch(b, f)| == b.payloadLen
            && ReadBatch(StoreBatch(b, f)) == Some(SeenBatch(0, WINDOW_SEC, if fault then 1 else 0, SeenAll(es, f)))
  {
    var b := MakeBatch(es, fault);
    HeaderFields(Le(0, 4), Le(WINDOW_SEC, 2), [b.entryCount, b.flags], StoreEntries(es, f));
    FitsBounds(0);
    FitsBounds(WINDOW_SEC);
    LeRoundTrip(0, 4);
    LeRoundTrip(WINDOW_SEC, 2);
    PayloadEntriesRoundTrip(es, f);
  }

  /** The entries that a subscriber to every batch of one publication has seen, in order of arrival. */
  function ReadAll(payloads: seq<seq<Byte>>): Option<seq<SeenEntry>> {
    if payloads == [] then Some([])
    else
      var first, rest := ReadBatch(payloads[0]), ReadAll(payloads[1..]);
      if first.None? || rest.None? then None else Some(first.value.entries + rest.value)
  }

  predicate Storable(batches: seq<Batch>) {
    forall b :: b in batches ==> b.entryCount < 256 && b.flags < 256
  }

  /** The payloads of the messages of one publication. */
  function Payloads(batches: seq<Batch>, f: Floats): seq<seq<Byte>>
    requires Storable(batches)
  {
    if batches == [] then [] else [StoreBatch(batches[0], f)] + Payloads(batches[1..], f)
  }

  lemma BatchesFirst(es: seq<Entry>, fault: bool) returns (first: seq<Entry>, rest: seq<Entry>)
    requires es != []
    ensures 0 < |first| <= PER_BATCH && first + rest == es
    ensures Batches(es, fault) == [MakeBatch(first, fault)] + Batches(rest, fault)
  {
    first := if |es| <= PER_BATCH then es else es[..PER_BATCH];
    rest := es[|first|..];
  }

  lemma SeenBoth(a: seq<Entry>, b: seq<Entry>, f: Floats)
    requires Counted(a + b)
    ensures Counted(a) && Counted(b) && SeenAll(a + b, f) == SeenAll(a, f) + SeenAll(b, f)
  {
    assert forall k :: 0 <= k < |a| ==> a[k] == (a + b)[k];
    assert forall k :: 0 <= k < |b| ==> b[k] == (a + b)[|a| + k];
  }

  lemma ReadFirst(b: Batch, bs: seq<Batch>, f: Floats)
    requires b.entryCount < 256 && b.flags < 256 && Storable(bs)
    requires ReadBatch(StoreBatch(b, f)).Some? && ReadAll(Payloads(bs, f)).Some?
    ensures Storable([b] + bs)
    ensures ReadAll(Payloads([b] + bs, f)) ==
            Some(ReadBatch(StoreBatch(b, f)).value.entries + ReadAll(Payloads(bs, f)).value)
  {
    var payload, payloads := StoreBatch(b, f), Payloads(bs, f);
    assert ([b] + bs)[1..] == bs;
    assert ([payload] + payloads)[1..] == payloads;
  }

  lemma {:induction false} BatchesReadBack(es: seq<Entry>, fault: bool, f: Floats)
    requires Counted(es)
    ensures Storable(Batches(es, fault)) && ReadAll(Payloads(Batches(es, fault), f)) == Some(SeenAll(es, f))
    decreases |es|
  {
    if es == [] {
      assert SeenAll(es, f) == [];
    } else {
      var first, rest := BatchesFirst(es, fault);
      SeenBoth(first, rest, f);
      BatchRoundTrip(first, fault, f);
      BatchesReadBack(rest, fault, f);
      ReadFirst(MakeBatch(first, fault), Batches(rest, fault), f);
    }
  }

  lemma {:induction false} EntriesCounted(table: seq<Slot>, i: nat)
    requires i <= |table|
    ensures Counted(EntriesFrom(table, i))
    decreases |table| - i
  {
    if i < |table| {
      EntriesCounted(table, i + 1);
    }
  }

  /** Reading the payloads of one publication gives one entry for each active slot, in table order, with the values
      that were built. */
  lemma PublishedReadsBack(table: seq<Slot>, fault: bool, f: Floats)
    ensures var es := EntriesFrom(table, 0);
            && Counted(es) && Storable(Batches(es, fault))
            && ReadAll(Payloads(Batches(es, fault), f)) == Some(SeenAll(es, f))
  {
    EntriesCounted(table, 0);
    BatchesReadBack(EntriesFrom(table, 0), fault, f);
  }
}
