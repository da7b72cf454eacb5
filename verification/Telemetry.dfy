/** Metric aggregation and batching of the telemetry service (fbs/services/fb_telemetry.c).
    Values are exact reals within the range of a float; rounding is not modelled. */
module Telemetry {
  import opened Words
  import opened Wrappers

  const SLOTS: nat := 32
  const FREE: Id := 0xFFFF
  const FLT_MAX: real := 340282346600000000000000000000000000000.0
  const WINDOW_SEC: nat := 30
  const HDR_SIZE: nat := 8
  const ENTRY_SIZE: nat := 18
  const PER_BATCH: nat := 3

  type Id = n: int | 0 <= n < 0x1_0000
  type Unit = n: int | 0 <= n < 0x100
  type Float = v: real | -FLT_MAX <= v <= FLT_MAX witness 0.0

  datatype Kind = GaugeKind | CounterKind | HistogramKind

  datatype Report =
    | Gauge(id: Id, value: Float, unit: Unit)
    | Counter(id: Id, delta: U32, unit: Unit)
    | Histogram(id: Id, value: Float, unit: Unit)
  {
    function Kind(): Kind {
      match this
      case Gauge(_, _, _) => GaugeKind
      case Counter(_, _, _) => CounterKind
      case Histogram(_, _, _) => HistogramKind
    }
  }

  datatype Slot = Slot(
    id: Id, kind: Kind, unit: Unit, count: U32,
    sum: real, min: real, max: real, last: real, counterTotal: U32)

  // ---------------------------------------------------------------- what a window's reports mean

  /** The reports of one metric, in order. */
  function Of(reports: seq<Report>, id: Id): seq<Report> {
    if reports == [] then []
    else
      var last := reports[|reports| - 1];
      Of(reports[..|reports| - 1], id) + (if last.id == id then [last] else [])
  }

  /** The first 32 distinct metrics, in order of first report. */
  function Ids(reports: seq<Report>): (ids: seq<Id>)
    ensures |ids| <= SLOTS
  {
    if reports == [] then []
    else
      var ids, id := Ids(reports[..|reports| - 1]), reports[|reports| - 1].id;
      if id == FREE || id in ids || |ids| == SLOTS then ids else ids + [id]
  }

  function Values(reports: seq<Report>): seq<Float> {
    if reports == [] then []
    else
      var last := reports[|reports| - 1];
      Values(reports[..|reports| - 1]) + (if last.Counter? then [] else [last.value])
  }

  function Total(values: seq<Float>): real {
    if values == [] then 0.0 else Total(values[..|values| - 1]) + values[|values| - 1]
  }

  function DeltaTotal(reports: seq<Report>): nat {
    if reports == [] then 0
    else
      var last := reports[|reports| - 1];
      DeltaTotal(reports[..|reports| - 1]) + (if last.Counter? then last.delta else 0)
  }

  /** low and high are the extremes of the values, or the starting values when there are none. */
  ghost predicate Extremes(values: seq<Float>, low: real, high: real) {
    if values == [] then low == FLT_MAX && high == -FLT_MAX
    else
      && (exists i :: 0 <= i < |values| && values[i] == low)
      && (exists i :: 0 <= i < |values| && values[i] == high)
      && forall i :: 0 <= i < |values| ==> low <= values[i] <= high
  }

  function LastGauge(reports: seq<Report>): real {
    if reports == [] then 0.0
    else
      var last := reports[|reports| - 1];
      if last.Gauge? then last.value else LastGauge(reports[..|reports| - 1])
  }

  /** The slot holds the aggregate of these reports. */
  ghost predicate Summarises(slot: Slot, reports: seq<Report>) {
    && reports != []
    && slot.kind == reports[0].Kind() && slot.unit == reports[0].unit
    && slot.count == |reports| % WORD
    && slot.sum == Total(Values(reports))
    && slot.counterTotal == DeltaTotal(reports) % WORD
    && slot.last == LastGauge(reports)
    && Extremes(Values(reports), slot.min, slot.max)
  }

  /** The table of a window in which these reports arrived. */
  ghost predicate TableInv(table: seq<Slot>, reports: seq<Report>) {
    var ids := Ids(reports);
    && |table| == SLOTS
    && (forall k :: 0 <= k < |ids| ==> table[k].id == ids[k] && Summarises(table[k], Of(reports, ids[k])))
    && (forall k :: |ids| <= k < SLOTS ==> table[k].id == FREE)
  }

  // ---------------------------------------------------------------- the aggregator on values

  function Cleared(slot: Slot): Slot {
    slot.(count := 0, sum := 0.0, min := FLT_MAX, max := -FLT_MAX, last := 0.0, counterTotal := 0)
  }

  /** The first slot with this id, or SLOTS. */
  function Find(table: seq<Slot>, id: Id, from: nat): (k: nat)
    requires from <= |table|
    ensures from <= k <= |table|
    ensures k < |table| ==> table[k].id == id
    ensures forall i :: from <= i < k ==> table[i].id != id
    decreases |table| - from
  {
    if from == |table| || table[from].id == id then from else Find(table, id, from + 1)
  }

  /** Where a report of this metric is counted, or None when it is dropped. */
  function Place(table: seq<Slot>, id: Id): Option<nat> {
    var found, free := Find(table, id, 0), Find(table, FREE, 0);
    if found < |table| then Some(found) else if free < |table| then Some(free) else None
  }

  /** find_or_alloc's effect on the slot it returns. */
  function Claimed(slot: Slot, r: Report): Slot {
    if slot.id == r.id then slot else Cleared(slot.(id := r.id, kind := r.Kind(), unit := r.unit))
  }

  function Add(slot: Slot, r: Report): Slot {
    var counted := slot.(count := (slot.count + 1) % WORD);
    if r.Counter? then counted.(counterTotal := (slot.counterTotal + r.delta) % WORD)
    else
      var summed := counted.(sum := slot.sum + r.value,
                             min := if r.value < slot.min then r.value else slot.min,
                             max := if r.value > slot.max then r.value else slot.max);
      if r.Gauge? then summed.(last := r.value) else summed
  }

  function Aggregate(table: seq<Slot>, r: Report): (t: seq<Slot>)
    ensures |t| == |table|
  {
    match Place(table, r.id)
    case None => table
    case Some(k) => table[k := Add(Claimed(table[k], r), r)]
  }

  // ---------------------------------------------------------------- the table summarises the window

  lemma {:induction false} IdsDistinct(reports: seq<Report>)
    ensures forall i, j :: 0 <= i < j < |Ids(reports)| ==> Ids(reports)[i] != Ids(reports)[j]
    ensures FREE !in Ids(reports)
  {
    if reports != [] {
      IdsDistinct(reports[..|reports| - 1]);
    }
  }

  /** While a slot is free, a metric without one has not been reported. */
  lemma {:induction false} UnlistedUnreported(reports: seq<Report>, id: Id)
    requires id != FREE && id !in Ids(reports) && |Ids(reports)| < SLOTS
    ensures Of(reports, id) == []
  {
    if reports != [] {
      UnlistedUnreported(reports[..|reports| - 1], id);
    }
  }

  lemma ExtremesMore(values: seq<Float>, low: real, high: real, v: Float)
    requires Extremes(values, low, high)
    ensures Extremes(values + [v], if v < low then v else low, if v > high then v else high)
  {
    var all := values + [v];
    assert all[|values|] == v;
    if values != [] {
      var i :| 0 <= i < |values| && values[i] == low;
      var j :| 0 <= j < |values| && values[j] == high;
      assert all[i] == low && all[j] == high;
    }
  }

  lemma ValuesMore(reports: seq<Report>, r: Report)
    ensures Values(reports + [r]) == Values(reports) + (if r.Counter? then [] else [r.value])
    ensures DeltaTotal(reports + [r]) == DeltaTotal(reports) + (if r.Counter? then r.delta else 0)
    ensures LastGauge(reports + [r]) == if r.Gauge? then r.value else LastGauge(reports)
  {
    assert (reports + [r])[..|reports|] == reports;
  }

  lemma TotalMore(values: seq<Float>, v: Float)
    ensures Total(values + [v]) == Total(values) + v
  {
    assert (values + [v])[..|values|] == values;
  }

  lemma ModAdd(a: nat, b: nat)
    ensures (a % WORD + b) % WORD == (a + b) % WORD
  {}

  lemma CountsMore(slot: Slot, reports: seq<Report>, r: Report)
    requires Summarises(slot, reports)
    ensures var all, next := reports + [r], Add(slot, r);
            next.count == |all| % WORD && next.counterTotal == DeltaTotal(all) % WORD
            && next.kind == all[0].Kind() && next.unit == all[0].unit && next.last == LastGauge(all)
  {
    ModAdd(|reports|, 1);
    ModAdd(DeltaTotal(reports), if r.Counter? then r.delta else 0);
    ValuesMore(reports, r);
  }

  lemma AddSummarises(slot: Slot, reports: seq<Report>, r: Report)
    requires Summarises(slot, reports)
    ensures Summarises(Add(slot, r), reports + [r])
  {
    CountsMore(slot, reports, r);
    ValuesMore(reports, r);
    if !r.Counter? {
      TotalMore(Values(reports), r.value);
      ExtremesMore(Values(reports), slot.min, slot.max, r.value);
    } else {
      assert Values(reports) + [] == Values(reports);
    }
  }

  lemma FirstSummarises(slot: Slot, r: Report)
    requires slot.kind == r.Kind() && slot.unit == r.unit && slot == Cleared(slot)
    ensures Summarises(Add(slot, r), [r])
  {
    assert [] + [r] == [r];
    ValuesMore([], r);
    if !r.Counter? {
      var values: seq<Float> := [];
      assert values + [r.value] == [r.value];
      TotalMore(values, r.value);
      ExtremesMore(values, FLT_MAX, -FLT_MAX, r.value);
    }
  }

  lemma OfMore(reports: seq<Report>, r: Report, id: Id)
    ensures Of(reports + [r], id) == Of(reports, id) + (if r.id == id then [r] else [])
  {
    assert (reports + [r])[..|reports|] == reports;
  }

  lemma IdsMore(reports: seq<Report>, r: Report)
    ensures var ids := Ids(reports);
            Ids(reports + [r]) == if r.id == FREE || r.id in ids || |ids| == SLOTS then ids else ids + [r.id]
  {
    assert (reports + [r])[..|reports|] == reports;
  }

  lemma PlacedById(table: seq<Slot>, ids: seq<Id>, id: Id)
    requires |table| == SLOTS && |ids| <= SLOTS && id != FREE && FREE !in ids
    requires forall k :: 0 <= k < SLOTS ==> table[k].id == if k < |ids| then ids[k] else FREE
    ensures var place := Place(table, id);
            if id in ids then place.Some? && place.value < |ids| && ids[place.value] == id
            else place == if |ids| == SLOTS then None else Some(|ids|)
  {
    if id in ids {
      var j :| 0 <= j < |ids| && ids[j] == id;
      assert table[j].id == id;
    } else {
      assert Find(table, id, 0) == SLOTS;
      if |ids| < SLOTS {
        assert table[|ids|].id == FREE;
        assert Find(table, FREE, 0) == |ids|;
      } else {
        assert Find(table, FREE, 0) == SLOTS;
      }
    }
  }

  /** find_or_alloc: the metric's own slot, else the next unused one, else none. */
  lemma Placed(table: seq<Slot>, reports: seq<Report>, id: Id)
    requires TableInv(table, reports) && id != FREE
    ensures var ids, place := Ids(reports), Place(table, id);
            if id in ids then place.Some? && place.value < |ids| && ids[place.value] == id
            else place == if |ids| == SLOTS then None else Some(|ids|)
  {
    IdsDistinct(reports);
    PlacedById(table, Ids(reports), id);
  }

  lemma SlotUpdate(table: seq<Slot>, reports: seq<Report>, r: Report, j: nat, slot: Slot)
    requires TableInv(table, reports) && j < SLOTS
    requires var ids := Ids(reports + [r]);
             if j < |ids| then slot.id == ids[j] && Summarises(slot, Of(reports + [r], ids[j])) else slot.id == FREE
    requires var ids := Ids(reports + [r]);
             && Ids(reports) <= ids && |ids| <= |Ids(reports)| + 1
             && (|ids| > |Ids(reports)| ==> j == |Ids(reports)|)
             && forall k :: 0 <= k < |ids| && k != j ==> ids[k] != r.id
    ensures TableInv(table[j := slot], reports + [r])
  {
    var ids := Ids(reports + [r]);
    forall k | 0 <= k < |ids|
      ensures table[j := slot][k].id == ids[k] && Summarises(table[j := slot][k], Of(reports + [r], ids[k]))
    {
      if k != j {
        OfMore(reports, r, ids[k]);
        assert ids[k] == Ids(reports)[k];
        assert Of(reports, ids[k]) + [] == Of(reports, ids[k]);
      }
    }
  }

  lemma KnownIds(reports: seq<Report>, r: Report, j: nat)
    requires j < |Ids(reports)| && Ids(reports)[j] == r.id
    ensures Ids(reports + [r]) == Ids(reports)
    ensures forall k :: 0 <= k < |Ids(reports)| && k != j ==> Ids(reports)[k] != r.id
  {
    IdsDistinct(reports);
    IdsMore(reports, r);
  }

  lemma KnownSlot(table: seq<Slot>, reports: seq<Report>, r: Report, j: nat)
    requires TableInv(table, reports) && j < |Ids(reports)| && Ids(reports)[j] == r.id
    ensures table[j].id == r.id && Claimed(table[j], r) == table[j]
    ensures Summarises(table[j], Of(reports, r.id))
  {}

  lemma AddedSlot(slot: Slot, reports: seq<Report>, r: Report)
    requires slot.id == r.id && Summarises(slot, Of(reports, r.id))
    ensures Add(slot, r).id == r.id && Summarises(Add(slot, r), Of(reports + [r], r.id))
  {
    OfMore(reports, r, r.id);
    AddSummarises(slot, Of(reports, r.id), r);
  }

  lemma CountedKnown(table: seq<Slot>, reports: seq<Report>, r: Report, j: nat)
    requires TableInv(table, reports) && j < |Ids(reports)| && Ids(reports)[j] == r.id
    ensures TableInv(table[j := Add(Claimed(table[j], r), r)], reports + [r])
  {
    KnownIds(reports, r, j);
    KnownSlot(table, reports, r, j);
    AddedSlot(table[j], reports, r);
    SlotUpdate(table, reports, r, j, Add(table[j], r));
  }

  lemma CountedNew(table: seq<Slot>, reports: seq<Report>, r: Report)
    requires TableInv(table, reports) && r.id != FREE && r.id !in Ids(reports) && |Ids(reports)| < SLOTS
    ensures var j := |Ids(reports)|; TableInv(table[j := Add(Claimed(table[j], r), r)], reports + [r])
  {
    var j := |Ids(reports)|;
    IdsMore(reports, r);
    OfMore(reports, r, r.id);
    UnlistedUnreported(reports, r.id);
    assert [] + [r] == [r];
    assert table[j].id == FREE;
    FirstSummarises(Claimed(table[j], r), r);
    SlotUpdate(table, reports, r, j, Add(Claimed(table[j], r), r));
  }

  lemma CountedNowhere(table: seq<Slot>, reports: seq<Report>, r: Report)
    requires TableInv(table, reports)
    requires r.id == FREE || (r.id !in Ids(reports) && |Ids(reports)| == SLOTS)
    ensures TableInv(table, reports + [r])
  {
    var ids := Ids(reports);
    IdsMore(reports, r);
    IdsDistinct(reports);
    forall k | 0 <= k < |ids|
      ensures Summarises(table[k], Of(reports + [r], ids[k]))
    {
      OfMore(reports, r, ids[k]);
      assert Of(reports, ids[k]) + [] == Of(reports, ids[k]);
    }
  }

  lemma UnusedSlot(table: seq<Slot>, reports: seq<Report>, j: nat)
    requires TableInv(table, reports) && j < SLOTS && table[j].id == FREE
    ensures |Ids(reports)| <= j
  {
    IdsDistinct(reports);
  }

  lemma CountedFree(table: seq<Slot>, reports: seq<Report>, r: Report)
    requires TableInv(table, reports) && r.id == FREE
    ensures TableInv(Aggregate(table, r), reports + [r])
  {
    CountedNowhere(table, reports, r);
    match Place(table, r.id)
    case None =>
    case Some(j) =>
      IdsMore(reports, r);
      UnusedSlot(table, reports, j);
      UnusedChange(table, Aggregate(table, r), reports + [r], j);
  }

  /** What an unused slot holds besides its id does not matter. */
  lemma UnusedChange(table: seq<Slot>, next: seq<Slot>, reports: seq<Report>, j: nat)
    requires TableInv(table, reports) && |Ids(reports)| <= j < SLOTS == |next| && next[j].id == FREE
    requires forall k :: 0 <= k < SLOTS && k != j ==> next[k] == table[k]
    ensures TableInv(next, reports)
  {}

  /** Every report keeps the table equal to the summary of the window's reports. */
  lemma AggregateKeeps(table: seq<Slot>, reports: seq<Report>, r: Report)
    requires TableInv(table, reports)
    ensures TableInv(Aggregate(table, r), reports + [r])
  {
    if r.id == FREE {
      CountedFree(table, reports, r);
    } else {
      Placed(table, reports, r.id);
      match Place(table, r.id)
      case None => CountedNowhere(table, reports, r);
      case Some(j) =>
        if j < |Ids(reports)| {
          CountedKnown(table, reports, r, j);
        } else {
          CountedNew(table, reports, r);
        }
    }
  }

  lemma CountingShows(table: seq<Slot>, r: Report, j: nat)
    requires j < |table|
    ensures table[j := Add(Claimed(table[j], r), r)] != table
  {
    var slot, next := table[j], Add(Claimed(table[j], r), r);
    assert next.id == r.id;
    assert slot.id == r.id ==> next.count == (slot.count + 1) % WORD != slot.count;
    assert table[j := next][j] != table[j];
  }

  /** A report of a real metric is dropped exactly when 32 other metrics are live. */
  lemma DroppedIff(table: seq<Slot>, reports: seq<Report>, r: Report)
    requires TableInv(table, reports) && r.id != FREE
    ensures Aggregate(table, r) == table <==> |Ids(reports)| == SLOTS && r.id !in Ids(reports)
  {
    Placed(table, reports, r.id);
    match Place(table, r.id)
    case None =>
    case Some(j) => CountingShows(table, r, j);
  }

  // ---------------------------------------------------------------- batches

  /** One 18-byte entry of a batch. */
  datatype Entry = Entry(id: Id, kind: Kind, unit: Unit, count: nat, a: real, b: real, c: real)

  datatype Batch = Batch(windowStart: nat, windowDur: nat, entryCount: nat, flags: nat, entries: seq<Entry>, payloadLen: nat)

  /** build_entry. */
  function BuildEntry(slot: Slot): Entry {
    var n := if slot.count > 0 then slot.count as real else 1.0;
    var count := if slot.count > 0xFFFF then 0xFFFF else slot.count;
    match slot.kind
    case GaugeKind => Entry(slot.id, slot.kind, slot.unit, count, slot.sum / n, slot.last, slot.max)
    case CounterKind => Entry(slot.id, slot.kind, slot.unit, count, slot.counterTotal as real, 0.0, 0.0)
    case HistogramKind => Entry(slot.id, slot.kind, slot.unit, count, slot.sum / n, slot.min, slot.max)
  }

  predicate Active(slot: Slot) {
    slot.id != FREE && slot.count > 0
  }

  function EntriesFrom(table: seq<Slot>, i: nat): seq<Entry>
    requires i <= |table|
    decreases |table| - i
  {
    if i == |table| then []
    else (if Active(table[i]) then [BuildEntry(table[i])] else []) + EntriesFrom(table, i + 1)
  }

  function MakeBatch(entries: seq<Entry>, fault: bool): Batch {
    Batch(0, WINDOW_SEC, |entries|, if fault then 1 else 0, entries, HDR_SIZE + |entries| * ENTRY_SIZE)
  }

  function Batches(entries: seq<Entry>, fault: bool): seq<Batch> {
    if entries == [] then []
    else if |entries| <= PER_BATCH then [MakeBatch(entries, fault)]
    else [MakeBatch(entries[..PER_BATCH], fault)] + Batches(entries[PER_BATCH..], fault)
  }

  function Flatten(batches: seq<Batch>): seq<Entry> {
    if batches == [] then [] else batches[0].entries + Flatten(batches[1..])
  }

  /** The entries leave in order, in ceil(n / 3) messages of one to three that fit a message's payload. */
  lemma {:induction false} BatchesCarry(entries: seq<Entry>, fault: bool)
    ensures Flatten(Batches(entries, fault)) == entries
    ensures |Batches(entries, fault)| == (|entries| + PER_BATCH - 1) / PER_BATCH
    ensures forall b :: b in Batches(entries, fault) ==>
              1 <= b.entryCount == |b.entries| <= PER_BATCH && b.payloadLen == HDR_SIZE + ENTRY_SIZE * |b.entries| <= 62
  {
    if |entries| > PER_BATCH {
      var rest := entries[PER_BATCH..];
      BatchesCarry(rest, fault);
      assert Batches(entries, fault)[1..] == Batches(rest, fault);
      assert entries[..PER_BATCH] + rest == entries;
    } else if entries != [] {
      assert Batches(entries, fault)[1..] == [];
      assert entries + [] == entries;
    }
  }

  // ---------------------------------------------------------------- what a batch says about the window

  predicate OneKind(reports: seq<Report>, kind: Kind) {
    forall i :: 0 <= i < |reports| ==> reports[i].Kind() == kind
  }

  lemma {:induction false} ValuesOfOneKind(reports: seq<Report>, kind: Kind)
    requires OneKind(reports, kind)
    ensures |Values(reports)| == if kind == CounterKind then 0 else |reports|
  {
    if reports != [] {
      var last := |reports| - 1;
      ValuesOfOneKind(reports[..last], kind);
      assert reports[last].Kind() == kind;
    }
  }

  lemma ScaleMore(n: nat, x: real)
    ensures (n + 1) as real * x == n as real * x + x
  {}

  lemma {:induction false} TotalBounds(values: seq<Float>, low: real, high: real)
    requires forall i :: 0 <= i < |values| ==> low <= values[i] <= high
    ensures |values| as real * low <= Total(values) <= |values| as real * high
  {
    if values != [] {
      var last := |values| - 1;
      TotalBounds(values[..last], low, high);
      ScaleMore(last, low);
      ScaleMore(last, high);
      assert low <= values[last] <= high;
    }
  }

  /** The values of an entry whose metric was reported with one kind, fewer than 2^32 times. */
  ghost predicate ValuesDescribe(e: Entry, reports: seq<Report>) {
    var n, values := |reports|, Values(reports);
    match e.kind
    case CounterKind => e.a == (DeltaTotal(reports) % WORD) as real
    case GaugeKind => MeanOf(e.a, values, n) && e.a <= e.c && e.b == LastGauge(reports) && Highest(values, e.c)
    case HistogramKind => MeanOf(e.a, values, n) && e.b <= e.a <= e.c && Extremes(values, e.b, e.c)
  }

  predicate MeanOf(mean: real, values: seq<Float>, n: nat) {
    |values| == n && mean * n as real == Total(values)
  }

  ghost predicate Highest(values: seq<Float>, high: real) {
    exists low :: Extremes(values, low, high)
  }

  /** What an entry tells its reader about the reports of its metric. */
  ghost predicate Describes(e: Entry, reports: seq<Report>) {
    && reports != []
    && e.kind == reports[0].Kind() && e.unit == reports[0].unit
    && (|reports| <= 0xFFFF ==> e.count == |reports|)
    && (|reports| < WORD && OneKind(reports, e.kind) ==> ValuesDescribe(e, reports))
  }

  lemma Mean(total: real, n: nat, low: real, high: real)
    requires n > 0 && n as real * low <= total <= n as real * high
    ensures total / n as real * n as real == total && low <= total / n as real <= high
  {
    var mean := total / n as real;
    if mean < low {
      Scaled(n as real, mean, low);
    }
    if high < mean {
      Scaled(n as real, high, mean);
    }
  }

  lemma Scaled(n: real, x: real, y: real)
    requires n > 0.0 && x < y
    ensures n * x < n * y
  {}

  lemma ExtremesMean(values: seq<Float>, low: real, high: real, total: real)
    requires values != [] && Extremes(values, low, high) && total == Total(values)
    ensures MeanOf(total / |values| as real, values, |values|) && low <= total / |values| as real <= high
  {
    TotalBounds(values, low, high);
    Mean(total, |values|, low, high);
  }

  lemma SlotMean(slot: Slot, reports: seq<Report>)
    requires Summarises(slot, reports) && slot.count == |reports| && slot.kind != CounterKind
    requires OneKind(reports, slot.kind)
    ensures var mean := slot.sum / slot.count as real;
            MeanOf(mean, Values(reports), |reports|) && slot.min <= mean <= slot.max
  {
    ValuesOfOneKind(reports, slot.kind);
    ExtremesMean(Values(reports), slot.min, slot.max, slot.sum);
  }

  lemma SlotValuesDescribe(slot: Slot, reports: seq<Report>)
    requires Summarises(slot, reports) && 0 < slot.count == |reports|
    requires OneKind(reports, slot.kind)
    ensures ValuesDescribe(BuildEntry(slot), reports)
  {
    if slot.kind != CounterKind {
      SlotMean(slot, reports);
      assert Highest(Values(reports), slot.max);
    }
  }

  lemma EntryDescribes(slot: Slot, reports: seq<Report>)
    requires Summarises(slot, reports) && slot.count > 0
    ensures Describes(BuildEntry(slot), reports)
  {
    if |reports| < WORD && OneKind(reports, slot.kind) {
      SlotValuesDescribe(slot, reports);
    }
  }

  /** The metrics of ids that a batch lists: those whose 32-bit report count is not zero. */
  function Listed(ids: seq<Id>, reports: seq<Report>, k: nat): seq<Id>
    requires k <= |ids|
    decreases |ids| - k
  {
    if k == |ids| then []
    else (if |Of(reports, ids[k])| % WORD != 0 then [ids[k]] else []) + Listed(ids, reports, k + 1)
  }

  function EntryIds(entries: seq<Entry>): seq<Id> {
    seq(|entries|, i requires 0 <= i < |entries| => entries[i].id)
  }

  lemma {:induction false} NothingPastLive(table: seq<Slot>, i: nat)
    requires i <= |table| && forall k :: i <= k < |table| ==> table[k].id == FREE
    ensures EntriesFrom(table, i) == []
    decreases |table| - i
  {
    if i < |table| {
      NothingPastLive(table, i + 1);
    }
  }

  lemma EntryIdsStep(table: seq<Slot>, k: nat)
    requires k < |table|
    ensures EntryIds(EntriesFrom(table, k)) ==
            (if Active(table[k]) then [table[k].id] else []) + EntryIds(EntriesFrom(table, k + 1))
  {
    var e, rest := BuildEntry(table[k]), EntriesFrom(table, k + 1);
    assert EntryIds([e] + rest) == [e.id] + EntryIds(rest);
    assert [] + rest == rest && [] + EntryIds(rest) == EntryIds(rest);
  }

  /** The entries of a window list its metrics once each, in table order. */
  lemma EntriesList(table: seq<Slot>, reports: seq<Report>, k: nat)
    requires TableInv(table, reports) && k <= |Ids(reports)|
    ensures EntryIds(EntriesFrom(table, k)) == Listed(Ids(reports), reports, k)
  {
    IdsDistinct(reports);
    forall i | 0 <= i < |Ids(reports)|
      ensures ListsSlot(table, Ids(reports), reports, i)
    {
      SlotListed(table, reports, i);
    }
    ListedFrom(table, Ids(reports), reports, k);
  }

  ghost predicate ListsSlot(table: seq<Slot>, ids: seq<Id>, reports: seq<Report>, i: nat) {
    i < |table| && i < |ids| && table[i].id == ids[i] && Active(table[i]) == (|Of(reports, ids[i])| % WORD != 0)
  }

  lemma {:induction false} ListedFrom(table: seq<Slot>, ids: seq<Id>, reports: seq<Report>, k: nat)
    requires k <= |ids| <= |table|
    requires forall i :: 0 <= i < |ids| ==> ListsSlot(table, ids, reports, i)
    requires forall i :: |ids| <= i < |table| ==> table[i].id == FREE
    ensures EntryIds(EntriesFrom(table, k)) == Listed(ids, reports, k)
    decreases |ids| - k
  {
    if k == |ids| {
      NothingPastLive(table, k);
    } else {
      ListedFrom(table, ids, reports, k + 1);
      assert ListsSlot(table, ids, reports, k);
      ListedStep(table, ids, reports, k);
    }
  }

  lemma ListedStep(table: seq<Slot>, ids: seq<Id>, reports: seq<Report>, k: nat)
    requires k < |table| && k < |ids| && table[k].id == ids[k]
    requires Active(table[k]) == (|Of(reports, ids[k])| % WORD != 0)
    requires EntryIds(EntriesFrom(table, k + 1)) == Listed(ids, reports, k + 1)
    ensures EntryIds(EntriesFrom(table, k)) == Listed(ids, reports, k)
  {
    EntryIdsStep(table, k);
  }

  lemma SlotListed(table: seq<Slot>, reports: seq<Report>, k: nat)
    requires TableInv(table, reports) && k < |Ids(reports)|
    ensures table[k].id == Ids(reports)[k]
    ensures Active(table[k]) == (|Of(reports, Ids(reports)[k])| % WORD != 0)
    ensures Active(table[k]) ==> Describes(BuildEntry(table[k]), Of(reports, table[k].id))
  {
    IdsDistinct(reports);
    assert Ids(reports)[k] in Ids(reports);
    if table[k].count > 0 {
      EntryDescribes(table[k], Of(reports, table[k].id));
    }
  }

  /** Every entry of a window describes the reports of its metric. */
  lemma {:induction false} EntriesDescribe(table: seq<Slot>, reports: seq<Report>, k: nat)
    requires TableInv(table, reports) && k <= SLOTS
    ensures forall e :: e in EntriesFrom(table, k) ==> Describes(e, Of(reports, e.id))
    decreases SLOTS - k
  {
    if k < SLOTS {
      EntriesDescribe(table, reports, k + 1);
      if k < |Ids(reports)| {
        SlotListed(table, reports, k);
      }
    }
  }

  // ---------------------------------------------------------------- runs

  datatype Input = Arrive(report: Report) | Second

  datatype State = State(table: seq<Slot>, elapsed: nat)

  function ResetSlots(table: seq<Slot>): (t: seq<Slot>)
    ensures |t| == |table|
  {
    seq(|table|, i requires 0 <= i < |table| => Cleared(table[i].(id := FREE)))
  }

  /** One message of the service's queue; a window's last second publishes it. */
  function Next(s: State, input: Input, registered: bool): (r: (State, seq<Batch>))
    requires |s.table| == SLOTS
    ensures |r.0.table| == SLOTS
  {
    match input
    case Arrive(report) => (s.(table := Aggregate(s.table, report)), [])
    case Second =>
      if s.elapsed + 1 < WINDOW_SEC then (s.(elapsed := s.elapsed + 1), [])
      else (State(ResetSlots(s.table), 0), if registered then Batches(EntriesFrom(s.table, 0), false) else [])
  }

  function Run(start: seq<Slot>, inputs: seq<Input>, registered: bool): (s: State)
    requires |start| == SLOTS
    ensures |s.table| == SLOTS
  {
    if inputs == [] then State(ResetSlots(start), 0)
    else Next(Run(start, inputs[..|inputs| - 1], registered), inputs[|inputs| - 1], registered).0
  }

  function Seconds(inputs: seq<Input>): nat {
    if inputs == [] then 0
    else Seconds(inputs[..|inputs| - 1]) + (if inputs[|inputs| - 1].Second? then 1 else 0)
  }

  /** The reports since the last multiple of 30 seconds. */
  function Window(inputs: seq<Input>): seq<Report> {
    if inputs == [] then []
    else
      var before, last := inputs[..|inputs| - 1], inputs[|inputs| - 1];
      match last
      case Arrive(report) => Window(before) + [report]
      case Second => if Seconds(inputs) % WINDOW_SEC == 0 then [] else Window(before)
  }

  lemma ResetEmpty(table: seq<Slot>)
    requires |table| == SLOTS
    ensures TableInv(ResetSlots(table), [])
  {
    assert forall k :: 0 <= k < SLOTS ==> ResetSlots(table)[k].id == FREE;
  }

  function WindowAfter(reports: seq<Report>, seconds: nat, input: Input): seq<Report> {
    match input
    case Arrive(report) => reports + [report]
    case Second => if (seconds + 1) % WINDOW_SEC == 0 then [] else reports
  }

  function SecondsAfter(seconds: nat, input: Input): nat {
    if input.Second? then seconds + 1 else seconds
  }

  lemma NextEffect(s: State, seconds: nat, input: Input, registered: bool)
    requires |s.table| == SLOTS && s.elapsed == seconds % WINDOW_SEC
    ensures var n := Next(s, input, registered).0;
            && n.elapsed == SecondsAfter(seconds, input) % WINDOW_SEC
            && n.table == match input
                          case Arrive(report) => Aggregate(s.table, report)
                          case Second => if (seconds + 1) % WINDOW_SEC == 0 then ResetSlots(s.table) else s.table
  {}

  lemma NextSummarises(s: State, reports: seq<Report>, seconds: nat, input: Input, registered: bool)
    requires TableInv(s.table, reports) && s.elapsed == seconds % WINDOW_SEC
    ensures var n := Next(s, input, registered).0;
            TableInv(n.table, WindowAfter(reports, seconds, input))
            && n.elapsed == SecondsAfter(seconds, input) % WINDOW_SEC
  {
    NextEffect(s, seconds, input, registered);
    match input
    case Arrive(report) => AggregateKeeps(s.table, reports, report);
    case Second => ResetEmpty(s.table);
  }

  lemma RunStep(start: seq<Slot>, inputs: seq<Input>, registered: bool)
    requires |start| == SLOTS && inputs != []
    ensures var before, last := inputs[..|inputs| - 1], inputs[|inputs| - 1];
            && Run(start, inputs, registered) == Next(Run(start, before, registered), last, registered).0
            && Seconds(inputs) == SecondsAfter(Seconds(before), last)
            && Window(inputs) == WindowAfter(Window(before), Seconds(before), last)
  {}

  /** After any inputs the table is the summary of the reports of the current 30-second window. */
  lemma {:induction false} RunSummarises(start: seq<Slot>, inputs: seq<Input>, registered: bool)
    requires |start| == SLOTS
    ensures var s := Run(start, inputs, registered);
            TableInv(s.table, Window(inputs)) && s.elapsed == Seconds(inputs) % WINDOW_SEC
  {
    if inputs == [] {
      ResetEmpty(start);
    } else {
      var before := inputs[..|inputs| - 1];
      RunSummarises(start, before, registered);
      RunStep(start, inputs, registered);
      NextSummarises(Run(start, before, registered), Window(before), Seconds(before), inputs[|inputs| - 1], registered);
    }
  }

  /** The messages together list each metric of the window once, in order of first report, and describe its
      reports; each holds one to three entries. */
  ghost predicate ReportsWindow(batches: seq<Batch>, reports: seq<Report>) {
    && EntryIds(Flatten(batches)) == Listed(Ids(reports), reports, 0)
    && (forall e :: e in Flatten(batches) ==> Describes(e, Of(reports, e.id)))
    && |batches| == (|Flatten(batches)| + PER_BATCH - 1) / PER_BATCH
    && forall b :: b in batches ==>
         1 <= b.entryCount == |b.entries| <= PER_BATCH && b.payloadLen == HDR_SIZE + ENTRY_SIZE * |b.entries| <= 62
  }

  lemma BatchesReport(table: seq<Slot>, reports: seq<Report>, fault: bool)
    requires TableInv(table, reports)
    ensures ReportsWindow(Batches(EntriesFrom(table, 0), fault), reports)
  {
    EntriesList(table, reports, 0);
    EntriesDescribe(table, reports, 0);
    BatchesCarry(EntriesFrom(table, 0), fault);
  }

  /** Over every run: only a second that ends a window publishes, and then the batches report that window. */
  lemma WindowPublished(start: seq<Slot>, inputs: seq<Input>, input: Input)
    requires |start| == SLOTS
    ensures var batches := Next(Run(start, inputs, true), input, true).1;
            if input.Second? && (Seconds(inputs) + 1) % WINDOW_SEC == 0 then ReportsWindow(batches, Window(inputs))
            else batches == []
  {
    RunReports(start, inputs);
    PublishedFrom(Run(start, inputs, true), Seconds(inputs), Window(inputs), input);
  }

  lemma PublishedFrom(s: State, seconds: nat, reports: seq<Report>, input: Input)
    requires |s.table| == SLOTS && s.elapsed == seconds % WINDOW_SEC
    requires ReportsWindow(Batches(EntriesFrom(s.table, 0), false), reports)
    ensures var batches := Next(s, input, true).1;
            if input.Second? && (seconds + 1) % WINDOW_SEC == 0 then ReportsWindow(batches, reports) else batches == []
  {
    WhenPublished(s, seconds, input);
  }

  /** Without a registered block nothing is published. */
  lemma UnregisteredSilent(s: State, input: Input)
    requires |s.table| == SLOTS
    ensures Next(s, input, false).1 == []
  {}

  lemma RunReports(start: seq<Slot>, inputs: seq<Input>)
    requires |start| == SLOTS
    ensures var s := Run(start, inputs, true);
            ReportsWindow(Batches(EntriesFrom(s.table, 0), false), Window(inputs)) && s.elapsed == Seconds(inputs) % WINDOW_SEC
  {
    RunSummarises(start, inputs, true);
    BatchesReport(Run(start, inputs, true).table, Window(inputs), false);
  }

  lemma WhenPublished(s: State, seconds: nat, input: Input)
    requires |s.table| == SLOTS && s.elapsed == seconds % WINDOW_SEC
    ensures Next(s, input, true).1 ==
            if input.Second? && (seconds + 1) % WINDOW_SEC == 0 then Batches(EntriesFrom(s.table, 0), false) else []
  {}

  lemma ListedStepIff(ids: seq<Id>, reports: seq<Report>, k: nat, id: Id)
    requires k < |ids|
    ensures id in Listed(ids, reports, k) <==>
            (id == ids[k] && |Of(reports, id)| % WORD != 0) || id in Listed(ids, reports, k + 1)
  {}

  lemma {:induction false} ListedIff(ids: seq<Id>, reports: seq<Report>, k: nat, id: Id)
    requires k <= |ids|
    ensures id in Listed(ids, reports, k) <==> id in ids[k..] && |Of(reports, id)| % WORD != 0
    decreases |ids| - k
  {
    if k < |ids| {
      ListedIff(ids, reports, k + 1, id);
      assert ids[k..] == [ids[k]] + ids[k + 1..];
      ListedStepIff(ids, reports, k, id);
    }
  }

  /** 0xFFFF, the mark of an unused slot, is never listed. */
  lemma FreeNeverListed(reports: seq<Report>)
    ensures FREE !in Listed(Ids(reports), reports, 0)
  {
    IdsDistinct(reports);
    ListedIff(Ids(reports), reports, 0, FREE);
    assert Ids(reports)[0..] == Ids(reports);
  }

  lemma CollectStep(table: seq<Slot>, i: nat, group: seq<Entry>)
    requires i < |table|
    ensures group + EntriesFrom(table, i) ==
            (if Active(table[i]) then group + [BuildEntry(table[i])] else group) + EntriesFrom(table, i + 1)
  {
    var rest := EntriesFrom(table, i + 1);
    assert group + ([BuildEntry(table[i])] + rest) == (group + [BuildEntry(table[i])]) + rest;
    assert [] + rest == rest;
  }

  // ---------------------------------------------------------------- the service's static state

  class Aggregator {
    const table: array<Slot>
    var elapsed: nat
    const registered: bool

    ghost predicate Valid() {
      table.Length == SLOTS
    }

    ghost function View(): State
      reads this, table
    {
      State(table[..], elapsed)
    }

    /** fb_telemetry_register; registered says whether a bus handle will exist. */
    constructor (registered: bool)
      ensures Valid() && fresh(table) && this.registered == registered
      ensures elapsed == 0 && TableInv(table[..], [])
    {
      table := new Slot[SLOTS](_ => Slot(FREE, GaugeKind, 0, 0, 0.0, 0.0, 0.0, 0.0, 0));
      elapsed := 0;
      this.registered := registered;
      new;
      ghost var was := table[..];
      ResetTable();
      ResetEmpty(was);
    }

    /** reset_table. */
    method ResetTable()
      requires Valid()
      modifies this, table
      ensures View() == State(ResetSlots(old(table[..])), 0)
    {
      ghost var was := table[..];
      for i := 0 to SLOTS
        invariant forall j :: 0 <= j < SLOTS ==> table[j] == if j < i then Cleared(was[j].(id := FREE)) else was[j]
      {
        table[i] := Slot(FREE, table[i].kind, table[i].unit, 0, 0.0, FLT_MAX, -FLT_MAX, 0.0, 0);
      }
      assert table[..] == ResetSlots(was);
      elapsed := 0;
    }

    /** find_or_alloc: a slot index, or None when the table is full. */
    method FindOrAlloc(r: Report) returns (k: Option<nat>)
      requires Valid()
      modifies table
      ensures k == Place(old(table[..]), r.id)
      ensures match k
              case None => table[..] == old(table[..])
              case Some(j) => table[..] == old(table[..])[j := Claimed(old(table[..])[j], r)]
    {
      ghost var was := table[..];
      for i := 0 to SLOTS
        invariant forall j :: 0 <= j < i ==> was[j].id != r.id
      {
        if table[i].id == r.id {
          assert Find(was, r.id, 0) == i;
          assert was[i := was[i]] == was;
          return Some(i);
        }
      }
      for i := 0 to SLOTS
        invariant forall j :: 0 <= j < i ==> was[j].id != FREE
        invariant table[..] == was
      {
        if table[i].id == FREE {
          assert Find(was, FREE, 0) == i;
          table[i] := Slot(r.id, r.Kind(), r.unit, 0, 0.0, FLT_MAX, -FLT_MAX, 0.0, 0);
          return Some(i);
        }
      }
      return None;
    }

    /** fb_telemetry__agg_gauge, _counter and _histogram, one branch each. */
    method Report(r: Report)
      requires Valid()
      modifies table
      ensures View() == Next(old(View()), Arrive(r), registered).0
    {
      var place := FindOrAlloc(r);
      if place.None? {
        return;
      }
      var k := place.value;
      var slot := table[k];
      slot := slot.(count := (slot.count + 1) % WORD);
      match r {
        case Gauge(_, value, _) =>
          slot := slot.(sum := slot.sum + value);
          if value < slot.min {
            slot := slot.(min := value);
          }
          if value > slot.max {
            slot := slot.(max := value);
          }
          slot := slot.(last := value);
        case Counter(_, delta, _) =>
          slot := slot.(counterTotal := (slot.counterTotal + delta) % WORD);
        case Histogram(_, value, _) =>
          slot := slot.(sum := slot.sum + value);
          if value < slot.min {
            slot := slot.(min := value);
          }
          if value > slot.max {
            slot := slot.(max := value);
          }
      }
      table[k] := slot;
      assert table[..] == Aggregate(old(table[..]), r);
    }

    /** The inner loop of publish_batch: up to three active slots from i on. */
    method Collect(i: nat) returns (group: seq<Entry>, next: nat)
      requires Valid() && i <= SLOTS
      ensures i <= next <= SLOTS && |group| <= PER_BATCH && (|group| < PER_BATCH ==> next == SLOTS)
      ensures i < SLOTS ==> i < next
      ensures EntriesFrom(table[..], i) == group + EntriesFrom(table[..], next)
    {
      ghost var slots := table[..];
      group, next := [], i;
      while next < SLOTS && |group| < PER_BATCH
        invariant i <= next <= SLOTS && |group| <= PER_BATCH && |group| <= next - i
        invariant EntriesFrom(slots, i) == group + EntriesFrom(slots, next)
      {
        CollectStep(slots, next, group);
        assert slots[next] == table[next];
        if table[next].id != FREE && table[next].count > 0 {
          group := group + [BuildEntry(table[next])];
        }
        next := next + 1;
      }
    }

    /** publish_batch. */
    method PublishBatch(fault: bool) returns (messages: seq<Batch>)
      requires Valid()
      ensures messages == if registered then Batches(EntriesFrom(table[..], 0), fault) else []
    {
      messages := [];
      if !registered {
        return;
      }
      ghost var slots := table[..];
      var i := 0;
      while i < SLOTS
        invariant i <= SLOTS
        invariant messages + Batches(EntriesFrom(slots, i), fault) == Batches(EntriesFrom(slots, 0), fault)
      {
        var group, next := Collect(i);
        BatchesStep(messages, group, EntriesFrom(slots, next), fault);
        i := next;
        if |group| == 0 {
          break;
        }
        messages := messages + [MakeBatch(group, fault)];
      }
      assert Batches(EntriesFrom(slots, SLOTS), fault) == [];
    }

    /** on_timer. */
    method OnTimer() returns (messages: seq<Batch>)
      requires Valid() && elapsed < WINDOW_SEC
      modifies this, table
      ensures (View(), messages) == Next(old(View()), Second, registered) && elapsed < WINDOW_SEC
    {
      messages := [];
      elapsed := elapsed + 1;
      if elapsed >= WINDOW_SEC {
        messages := PublishBatch(false);
        ResetTable();
      }
    }
  }

  lemma BatchesStep(messages: seq<Batch>, group: seq<Entry>, rest: seq<Entry>, fault: bool)
    requires |group| <= PER_BATCH && (|group| < PER_BATCH ==> rest == [])
    ensures messages + Batches(group + rest, fault) ==
            (if group == [] then messages else messages + [MakeBatch(group, fault)]) + Batches(rest, fault)
  {
    if rest == [] {
      assert group + rest == group;
      assert Batches(rest, fault) == [];
    } else {
      assert (group + rest)[..PER_BATCH] == group && (group + rest)[PER_BATCH..] == rest;
      var first := MakeBatch(group, fault);
      assert messages + ([first] + Batches(rest, fault)) == (messages + [first]) + Batches(rest, fault);
    }
  }
}
