/** The factory blob generator (tools/config_iq/embediq_nvs_gen.py) and its round trip through
    the C loader and the C getters.  Program exits and Python exceptions become None. */
module ConfigBlob {
  import opened Wrappers
  import opened NvmStore
  import opened NvmImage
  import opened Config
  import opened Flash
  import opened Nvm
  import Crc32

  datatype Kind = U32 | I32 | F32(limits: Option<(real, real)>) | Bool | Str(maxLen: nat)

  /** A value from a JSON file or a schema default; strings are their UTF-8 bytes.  A number comes with the float
      that struct.pack makes of it, or None where that overflows; x is None for a NaN or an infinity. */
  datatype Json =
    | IntV(n: int, single: Option<Single>)
    | FloatV(x: Option<real>, single: Option<Single>)
    | BoolV(b: bool)
    | StrV(s: Bytes)
    | OtherV

  datatype Spec = Spec(kind: Kind, range: Option<(int, int)>)

  datatype Item = Item(key: Bytes, value: Json, spec: Spec)

  function NaturalRange(kind: Kind): (int, int) {
    if kind.I32? then (-I32_LIMIT, I32_LIMIT - 1) else (0, U32_LIMIT - 1)
  }

  predicate Within(n: int, r: (int, int)) {
    r.0 <= n <= r.1
  }

  /** validate_and_encode.  A declared range wider than the type lets a value through that
      struct.pack then refuses. */
  function Encode(value: Json, spec: Spec): (r: Option<Bytes>)
    requires spec.kind.Str? ==> spec.kind.maxLen <= 63
    ensures r.Some? ==> |r.value| <= 63
  {
    match spec.kind
    case Str(maxLen) => if value.StrV? then Some(Cut(value.s, maxLen)) else None
    case Bool => if value.BoolV? then Some([FlagByte(value.b)]) else None
    case U32 => if IntAccepted(value, spec) then Some(U32Bytes(value.n)) else None
    case I32 => if IntAccepted(value, spec) then Some(I32Bytes(value.n)) else None
    case F32(limits) => if FloatAccepted(value, limits) then Some(value.single.value) else None
  }

  /** Integers pass as floats; no range excludes a NaN or an infinity unless one is declared. */
  predicate FloatAccepted(value: Json, limits: Option<(real, real)>) {
    && (value.IntV? || value.FloatV?)
    && (limits.Some? ==>
          var x := if value.IntV? then Some(value.n as real) else value.x;
          x.Some? && limits.value.0 <= x.value <= limits.value.1)
    && value.single.Some?
  }

  predicate IntAccepted(value: Json, spec: Spec) {
    && value.IntV?
    && Within(value.n, if spec.range.Some? then spec.range.value else NaturalRange(spec.kind))
    && Within(value.n, NaturalRange(spec.kind))
  }

  /** pack_entry: the '<64s64sHHBx' record of an active entry. */
  function PackEntry(key: Bytes, val: Bytes, minor: nat): (r: Option<Bytes>)
    requires |val| <= 63
    ensures r.Some? ==> |r.value| == ENTRY_SIZE
  {
    if |key| >= KEY_SIZE || minor >= 0x1_0000 then None
    else Some(key + Zeros(KEY_SIZE - |key|) + val + Zeros(VAL_SIZE - |val|) + U16Bytes(|val|) + U16Bytes(minor) + [1, 0])
  }

  function Join(records: seq<Bytes>): Bytes {
    if records == [] then [] else records[0] + Join(records[1..])
  }

  /** build_blob. */
  function BuildBlob(records: seq<Bytes>, major: nat, minor: nat): (r: Option<Bytes>)
  {
    if |records| > MAX_KEYS || major >= 256 || minor >= 256 then None
    else
      var payload := Payload(records);
      Some(BlobHeader(major, minor, |records|, Crc32.Checksum(payload)) + payload)
  }

  function Payload(records: seq<Bytes>): Bytes
    requires |records| <= MAX_KEYS
  {
    Join(records) + Zeros(ENTRY_SIZE * (MAX_KEYS - |records|))
  }

  function BlobHeader(major: nat, minor: nat, count: nat, crc: bv32): (h: Bytes)
    requires major < 256 && minor < 256 && count < 0x1_0000
    ensures |h| == HEADER_SIZE
    ensures h[..4] == MAGIC && h[8..12] == CrcBytes(crc)
  {
    Header(major as bv8, minor as bv8, count, crc)
  }

  /** The records of all items, or None if one of them is refused. */
  function Records(items: seq<Item>, minor: nat): (r: Option<seq<Bytes>>)
    requires ItemsOk(items)
    ensures r.Some? ==> |r.value| == |items|
  {
    if items == [] then Some([])
    else
      var front := Records(items[..|items| - 1], minor);
      var record := Record(items[|items| - 1], minor);
      if front.None? || record.None? then None else Some(front.value + [record.value])
  }

  /** The record of one item. */
  function Record(item: Item, minor: nat): Option<Bytes>
    requires item.spec.kind.Str? ==> item.spec.kind.maxLen <= 63
  {
    var val := Encode(item.value, item.spec);
    if val.None? then None else PackEntry(item.key, val.value, minor)
  }

  /** What parse_schema guarantees of string lengths. */
  predicate ItemsOk(items: seq<Item>) {
    forall i :: 0 <= i < |items| && items[i].spec.kind.Str? ==> items[i].spec.kind.maxLen <= 63
  }

  /** The loop of main: encode and pack every selected key, then build the blob. */
  method Generate(items: seq<Item>, major: nat, minor: nat) returns (blob: Option<Bytes>)
    requires ItemsOk(items)
    ensures blob == if Records(items, minor).None? then None else BuildBlob(Records(items, minor).value, major, minor)
  {
    var records: seq<Bytes> := [];
    for i := 0 to |items|
      invariant Records(items[..i], minor) == Some(records)
    {
      RecordsStep(items, i, minor);
      var val := Encode(items[i].value, items[i].spec);
      if val.None? {
        RefusedPrefix(items, i + 1, minor);
        return None;
      }
      var record := PackEntry(items[i].key, val.value, minor);
      if record.None? {
        RefusedPrefix(items, i + 1, minor);
        return None;
      }
      records := records + [record.value];
    }
    assert items[..|items|] == items;
    blob := BuildBlob(records, major, minor);
  }

  lemma RecordsStep(items: seq<Item>, i: nat, minor: nat)
    requires ItemsOk(items) && i < |items| && Records(items[..i], minor).Some?
    ensures var record := Record(items[i], minor);
            Records(items[..i + 1], minor) ==
              if record.None? then None else Some(Records(items[..i], minor).value + [record.value])
  {
    assert items[..i + 1][..i] == items[..i];
  }

  lemma {:induction false} RefusedPrefix(items: seq<Item>, n: nat, minor: nat)
    requires ItemsOk(items) && n <= |items| && Records(items[..n], minor).None?
    ensures Records(items, minor).None?
    decreases |items| - n
  {
    if n == |items| {
      assert items[..n] == items;
    } else {
      assert items[..n + 1][..n] == items[..n];
      RefusedPrefix(items, n + 1, minor);
    }
  }

  // ---------------------------------------------------------------- round trip

  function PackedEntry(key: Bytes, val: Bytes, minor: nat): Entry
    requires |key| < KEY_SIZE && |val| <= 63
  {
    Entry(KeyField(key), val + Zeros(VAL_SIZE - |val|), |val|, minor, true)
  }

  /** Python's record is the C struct, byte for byte. */
  lemma PackIsEncode(key: Bytes, val: Bytes, minor: nat)
    requires |val| <= 63 && PackEntry(key, val, minor).Some?
    ensures EntryOk(PackedEntry(key, val, minor))
    ensures PackEntry(key, val, minor).value == EncodeEntry(PackedEntry(key, val, minor))
  {
    var e := PackedEntry(key, val, minor);
    assert key + Zeros(KEY_SIZE - |key|) + val + Zeros(VAL_SIZE - |val|) == e.key + e.val;
  }

  /** The entries the blob holds. */
  function BlobEntries(items: seq<Item>, minor: nat): (es: seq<Entry>)
    requires ItemsOk(items) && Records(items, minor).Some?
    ensures |es| == |items|
  {
    if items == [] then []
    else
      var last := items[|items| - 1];
      BlobEntries(items[..|items| - 1], minor) + [PackedEntry(last.key, Encode(last.value, last.spec).value, minor)]
  }

  lemma {:induction false} BlobEntriesAt(items: seq<Item>, minor: nat, i: nat)
    requires ItemsOk(items) && Records(items, minor).Some? && i < |items|
    ensures Encode(items[i].value, items[i].spec).Some? && |items[i].key| < KEY_SIZE
    ensures BlobEntries(items, minor)[i] == PackedEntry(items[i].key, Encode(items[i].value, items[i].spec).value, minor)
    ensures EntryOk(BlobEntries(items, minor)[i])
    ensures Records(items, minor).value[i] == EncodeEntry(BlobEntries(items, minor)[i])
  {
    if i == |items| - 1 {
      PackIsEncode(items[i].key, Encode(items[i].value, items[i].spec).value, minor);
    } else {
      BlobEntriesAt(items[..|items| - 1], minor, i);
    }
  }

  lemma {:induction false} JoinIsEncode(records: seq<Bytes>, es: seq<Entry>)
    requires |records| == |es|
    requires forall i :: 0 <= i < |es| ==> EntryOk(es[i]) && records[i] == EncodeEntry(es[i])
    ensures Join(records) == EncodeAll(es)
  {
    if es != [] {
      JoinIsEncode(records[1..], es[1..]);
    }
  }

  lemma BlankEncodes()
    ensures EntryOk(Blank()) && EncodeEntry(Blank()) == Zeros(ENTRY_SIZE)
  {
    BlankOk();
    var b := EncodeEntry(Blank());
    assert U16Bytes(0) == [0, 0];
    assert Blank().key + Blank().val == Zeros(128);
  }

  function Blanks(n: nat): (es: seq<Entry>)
    ensures |es| == n
    ensures forall i :: 0 <= i < n ==> es[i] == Blank()
  {
    seq(n, _ => Blank())
  }

  lemma {:induction false} BlanksEncode(n: nat)
    ensures EntryOk(Blank())
    ensures EncodeAll(Blanks(n)) == Zeros(ENTRY_SIZE * n)
  {
    BlankEncodes();
    if n > 0 {
      BlanksEncode(n - 1);
      assert Blanks(n)[1..] == Blanks(n - 1);
      assert Zeros(ENTRY_SIZE) + Zeros(ENTRY_SIZE * (n - 1)) == Zeros(ENTRY_SIZE * n);
    }
  }

  lemma {:induction false} EncodeConcat(a: seq<Entry>, b: seq<Entry>)
    requires forall i :: 0 <= i < |a| ==> EntryOk(a[i])
    requires forall i :: 0 <= i < |b| ==> EntryOk(b[i])
    ensures EncodeAll(a + b) == EncodeAll(a) + EncodeAll(b)
  {
    if a == [] {
      assert a + b == b;
    } else {
      assert (a + b)[1..] == a[1..] + b;
      EncodeConcat(a[1..], b);
    }
  }

  /** Selected keys are distinct C strings. */
  ghost predicate KeysOk(items: seq<Item>) {
    && (forall i :: 0 <= i < |items| ==> IsKey(items[i].key))
    && (forall i, j :: 0 <= i < j < |items| ==> items[i].key != items[j].key)
  }

  function Generated(items: seq<Item>, major: nat, minor: nat): Option<Bytes>
    requires ItemsOk(items)
  {
    var records := Records(items, minor);
    if records.None? then None else BuildBlob(records.value, major, minor)
  }

  lemma PayloadIs(items: seq<Item>, minor: nat)
    requires ItemsOk(items) && Records(items, minor).Some? && |items| <= MAX_KEYS
    ensures SlotsOk(BlobEntries(items, minor) + Blanks(MAX_KEYS - |items|))
    ensures Payload(Records(items, minor).value) == EncodeAll(BlobEntries(items, minor) + Blanks(MAX_KEYS - |items|))
  {
    var records := Records(items, minor).value;
    var es, rest := BlobEntries(items, minor), Blanks(MAX_KEYS - |items|);
    forall i | 0 <= i < |es| ensures EntryOk(es[i]) && records[i] == EncodeEntry(es[i]) {
      BlobEntriesAt(items, minor, i);
    }
    JoinIsEncode(records, es);
    BlanksEncode(MAX_KEYS - |items|);
    EncodeConcat(es, rest);
  }

  /** The C loader accepts every generated blob and sees exactly its entries. */
  lemma BlobLoads(items: seq<Item>, major: nat, minor: nat)
    requires ItemsOk(items) && Generated(items, major, minor).Some?
    ensures |Generated(items, major, minor).value| == IMAGE_SIZE
    ensures Load(Generated(items, major, minor).value) == BlobEntries(items, minor) + Blanks(MAX_KEYS - |items|)
    ensures SlotsOk(BlobEntries(items, minor) + Blanks(MAX_KEYS - |items|))
  {
    PayloadIs(items, minor);
    var es := BlobEntries(items, minor) + Blanks(MAX_KEYS - |items|);
    LoadBuilt(es, BlobHeader(major, minor, |items|, Crc32.Checksum(EncodeAll(es))));
  }

  lemma BlobHolds(items: seq<Item>, minor: nat, i: nat)
    requires ItemsOk(items) && KeysOk(items) && |items| <= MAX_KEYS && Records(items, minor).Some? && i < |items|
    ensures var es := BlobEntries(items, minor) + Blanks(MAX_KEYS - |items|);
            Holds(es, i, items[i].key) && EntryOk(es[i]) && Some(Value(es[i])) == Encode(items[i].value, items[i].spec)
  {
    BlobEntriesAt(items, minor, i);
    PackedHolds(items[i].key, Encode(items[i].value, items[i].spec).value, minor);
    var front := BlobEntries(items, minor);
    assert (front + Blanks(MAX_KEYS - |items|))[i] == front[i];
  }

  lemma PackedHolds(key: Bytes, val: Bytes, minor: nat)
    requires IsKey(key) && |key| < KEY_SIZE && |val| <= 63 && EntryOk(PackedEntry(key, val, minor))
    ensures var e := PackedEntry(key, val, minor); e.active && Name(e.key) == key && Value(e) == val
  {
    NameOfPadded(key, KEY_SIZE - |key|);
  }

  lemma BlobDistinct(items: seq<Item>, minor: nat)
    requires ItemsOk(items) && KeysOk(items) && |items| <= MAX_KEYS && Records(items, minor).Some?
    requires SlotsOk(BlobEntries(items, minor) + Blanks(MAX_KEYS - |items|))
    ensures StoreInv(BlobEntries(items, minor) + Blanks(MAX_KEYS - |items|))
  {
    var es := BlobEntries(items, minor) + Blanks(MAX_KEYS - |items|);
    forall i, j | 0 <= i < j < |es| && es[i].active && es[j].active ensures Name(es[i].key) != Name(es[j].key) {
      BlobHolds(items, minor, i);
      BlobHolds(items, minor, j);
    }
  }

  /** The map of the entries: every item at its encoded value, and no other key. */
  lemma EntriesView(items: seq<Item>, minor: nat, es: seq<Entry>)
    requires ItemsOk(items) && KeysOk(items) && |items| <= MAX_KEYS && Records(items, minor).Some?
    requires es == BlobEntries(items, minor) + Blanks(MAX_KEYS - |items|) && StoreInv(es)
    ensures forall i :: 0 <= i < |items| ==> items[i].key in View(es) && Some(View(es)[items[i].key]) == Encode(items[i].value, items[i].spec)
    ensures forall key :: key in View(es) ==> exists i :: 0 <= i < |items| && items[i].key == key
  {
    forall i | 0 <= i < |items|
      ensures items[i].key in View(es) && Some(View(es)[items[i].key]) == Encode(items[i].value, items[i].spec)
    {
      BlobHolds(items, minor, i);
      ViewAt(es, i, items[i].key);
    }
    forall key | key in View(es) ensures exists i :: 0 <= i < |items| && items[i].key == key {
      var i := Slot(es, key);
      assert Holds(es, i, key);
      BlobHolds(items, minor, i);
    }
  }

  /** What a typed getter of a booted device returns for one item of the blob. */
  ghost predicate ReadsBack(m: map<Bytes, Bytes>, item: Item)
    requires item.spec.kind.Str? ==> item.spec.kind.maxLen <= 63
  {
    match item.spec.kind
    case U32 => item.value.IntV? && forall d :: ReadU32(m, item.key, d) == item.value.n
    case I32 => item.value.IntV? && forall d :: ReadI32(m, item.key, d) == item.value.n
    case F32(_) =>
      (item.value.IntV? || item.value.FloatV?) && item.value.single.Some?
      && forall d :: ReadFloat(m, item.key, d) == item.value.single.value
    case Bool => item.value.BoolV? && forall d :: ReadBool(m, item.key, d) == item.value.b
    case Str(maxLen) =>
      item.value.StrV? && forall size: nat, d :: size > 0 ==> ReadStr(m, item.key, size, d) == Cut(Cut(item.value.s, maxLen), size - 1)
  }

  ghost predicate ReadsDefault(m: map<Bytes, Bytes>, key: Bytes) {
    && (forall d :: ReadU32(m, key, d) == d)
    && (forall d :: ReadI32(m, key, d) == d)
    && (forall d :: ReadBool(m, key, d) == d)
    && (forall d :: ReadFloat(m, key, d) == d)
    && (forall size: nat, d :: size > 0 ==> ReadStr(m, key, size, d) == Cut(d, size - 1))
  }

  lemma EncodedReadsBack(m: map<Bytes, Bytes>, item: Item)
    requires item.spec.kind.Str? ==> item.spec.kind.maxLen <= 63
    requires item.key in m && Some(m[item.key]) == Encode(item.value, item.spec)
    ensures ReadsBack(m, item)
  {
    match item.spec.kind
    case U32 => U32RoundTrip(item.value.n);
    case I32 => I32RoundTrip(item.value.n);
    case _ =>
  }

  /** Round trip across the two languages: flash a generated blob, boot, and every typed getter
      returns the value the tool encoded; every key not written gives the caller's default. */
  lemma BlobRoundTrip(items: seq<Item>, major: nat, minor: nat, blob: Bytes) returns (es: seq<Entry>)
    requires ItemsOk(items) && KeysOk(items) && Generated(items, major, minor) == Some(blob)
    ensures |blob| == IMAGE_SIZE && es == Load(blob) && StoreInv(es)
    ensures forall i :: 0 <= i < |items| ==> ReadsBack(View(es), items[i])
    ensures forall key :: (forall i :: 0 <= i < |items| ==> items[i].key != key) ==> ReadsDefault(View(es), key)
  {
    BlobLoads(items, major, minor);
    es := BlobEntries(items, minor) + Blanks(MAX_KEYS - |items|);
    BlobDistinct(items, minor);
    EntriesView(items, minor, es);
    MapReadsBack(View(es), items);
  }

  /** A device whose backing file is the blob loads it, whatever is left in the temporary file. */
  lemma FlashedLoads(blob: Bytes, tmp: Option<Bytes>)
    requires |blob| == IMAGE_SIZE
    ensures LoadDisk(Disk(Some(blob), tmp)) == Load(blob)
  {
    assert Read(Disk(Some(blob), tmp), 0, IMAGE_SIZE) == blob;
  }

  /** A device flashed with a generated blob boots into the items' values and defaults, and from there is crash
      consistent: after any run a reload gives what the last replacing write saved. */
  lemma FlashedDeviceRuns(items: seq<Item>, major: nat, minor: nat, blob: Bytes, tmp: Option<Bytes>,
                          factory: set<Bytes>, events: seq<Event>, t: System)
    requires ItemsOk(items) && KeysOk(items) && Generated(items, major, minor) == Some(blob)
    requires EventsOk(events) && Runs(PowerOn(Disk(Some(blob), tmp)), factory, events, t)
    ensures var d := Disk(Some(blob), tmp);
            && StoreInv(LoadDisk(d))
            && (forall i :: 0 <= i < |items| ==> ReadsBack(PowerOnSpec(d).live, items[i]))
            && (forall key :: (forall i :: 0 <= i < |items| ==> items[i].key != key) ==> ReadsDefault(PowerOnSpec(d).live, key))
            && StoreInv(PowerOn(t.disk).ram)
            && View(PowerOn(t.disk).ram) == RunSpec(PowerOnSpec(d), PowerOn(d), factory, events).durable
  {
    var es := BlobRoundTrip(items, major, minor, blob);
    FlashedLoads(blob, tmp);
    CrashConsistent(Disk(Some(blob), tmp), factory, events, t);
  }

  lemma MapReadsBack(m: map<Bytes, Bytes>, items: seq<Item>)
    requires ItemsOk(items)
    requires forall i :: 0 <= i < |items| ==> items[i].key in m && Some(m[items[i].key]) == Encode(items[i].value, items[i].spec)
    requires forall key :: key in m ==> exists i :: 0 <= i < |items| && items[i].key == key
    ensures forall i :: 0 <= i < |items| ==> ReadsBack(m, items[i])
    ensures forall key :: (forall i :: 0 <= i < |items| ==> items[i].key != key) ==> ReadsDefault(m, key)
  {
    forall i | 0 <= i < |items| ensures ReadsBack(m, items[i]) {
      EncodedReadsBack(m, items[i]);
    }
  }

  /** The item's value is accepted and its key fits the field. */
  predicate Packable(item: Item)
    requires item.spec.kind.Str? ==> item.spec.kind.maxLen <= 63
  {
    |item.key| < KEY_SIZE && Encode(item.value, item.spec).Some?
  }

  lemma RecordsMore(items: seq<Item>, minor: nat)
    requires ItemsOk(items) && items != [] && minor < 0x1_0000
    ensures Records(items, minor).Some? <==>
            Records(items[..|items| - 1], minor).Some? && Packable(items[|items| - 1])
  {}

  lemma {:induction false} RecordsIff(items: seq<Item>, minor: nat)
    requires ItemsOk(items) && minor < 0x1_0000
    ensures Records(items, minor).Some? <==> AllPackable(items)
  {
    if items != [] {
      RecordsIff(items[..|items| - 1], minor);
      RecordsMore(items, minor);
      AllMore(items);
    }
  }

  predicate AllPackable(items: seq<Item>)
    requires ItemsOk(items)
  {
    forall i :: 0 <= i < |items| ==> Packable(items[i])
  }

  lemma AllMore(items: seq<Item>)
    requires ItemsOk(items) && items != []
    ensures AllPackable(items) <==> AllPackable(items[..|items| - 1]) && Packable(items[|items| - 1])
  {}

  /** The tool succeeds exactly when everything fits its fields. */
  lemma GeneratesIff(items: seq<Item>, major: nat, minor: nat)
    requires ItemsOk(items)
    ensures Generated(items, major, minor).Some? <==>
            && |items| <= MAX_KEYS && major < 256 && minor < 256
            && AllPackable(items)
  {
    if minor < 0x1_0000 {
      RecordsIff(items, minor);
    }
  }
}
