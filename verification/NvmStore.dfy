/** The 64-slot key-value array of fb_nvm (fbs/drivers/fb_nvm.c) and the finite map it stands for. */
module NvmStore {
  import opened Wrappers

  const KEY_SIZE: nat := 64
  const VAL_SIZE: nat := 64
  const MAX_KEYS: nat := 64

  type Bytes = seq<bv8>

  datatype Entry = Entry(key: Bytes, val: Bytes, valLen: nat, schemaId: nat, active: bool)

  function Zeros(n: nat): (z: Bytes)
    ensures |z| == n
    ensures forall i :: 0 <= i < n ==> z[i] == 0
  {
    seq(n, _ => 0)
  }

  function Blank(): Entry {
    Entry(Zeros(KEY_SIZE), Zeros(VAL_SIZE), 0, 0, false)
  }

  function Empty(): (es: seq<Entry>)
    ensures |es| == MAX_KEYS
  {
    seq(MAX_KEYS, _ => Blank())
  }

  /** A C string: no NUL inside. */
  predicate IsKey(key: Bytes) {
    forall i :: 0 <= i < |key| ==> key[i] != 0
  }

  /** The string in a NUL-padded field. */
  function Name(field: Bytes): (name: Bytes)
    ensures |name| <= |field| && IsKey(name)
    ensures name == field[..|name|]
    ensures |name| < |field| ==> field[|name|] == 0
  {
    if field == [] || field[0] == 0 then [] else [field[0]] + Name(field[1..])
  }

  /** What strncpy of at most KEY_SIZE - 1 bytes plus the forced terminator leaves. */
  function KeyField(key: Bytes): (field: Bytes)
    requires |key| < KEY_SIZE
    ensures |field| == KEY_SIZE
  {
    key + Zeros(KEY_SIZE - |key|)
  }

  /** The outcome of strncmp(field, key, KEY_SIZE) == 0. */
  predicate SameKey(field: Bytes, key: Bytes) {
    Name(field) == if |key| <= KEY_SIZE then key else key[..KEY_SIZE]
  }

  lemma {:induction false} NameOfPadded(key: Bytes, n: nat)
    requires IsKey(key)
    ensures Name(key + Zeros(n)) == key
  {
    var field := key + Zeros(n);
    if key == [] {
      if n > 0 { assert field[0] == 0; }
    } else {
      assert field[1..] == key[1..] + Zeros(n);
      NameOfPadded(key[1..], n);
    }
  }

  predicate EntryOk(e: Entry) {
    && |e.key| == KEY_SIZE && |e.val| == VAL_SIZE
    && e.valLen <= VAL_SIZE && e.schemaId < 0x1_0000
    && e.key[KEY_SIZE - 1] == 0                       // the forced terminator
  }

  predicate SlotsOk(es: seq<Entry>) {
    |es| == MAX_KEYS && forall i :: 0 <= i < |es| ==> EntryOk(es[i])
  }

  /** Well-formed slots; no key is active twice. */
  ghost predicate StoreInv(es: seq<Entry>) {
    && SlotsOk(es)
    && (forall i, j :: 0 <= i < j < |es| && es[i].active && es[j].active ==> Name(es[i].key) != Name(es[j].key))
  }

  ghost predicate Holds(es: seq<Entry>, i: nat, key: Bytes) {
    i < |es| && es[i].active && Name(es[i].key) == key
  }

  ghost function Keys(es: seq<Entry>): set<Bytes> {
    set i | 0 <= i < |es| && es[i].active :: Name(es[i].key)
  }

  lemma SlotExists(es: seq<Entry>, key: Bytes)
    requires key in Keys(es)
    ensures exists i: nat :: Holds(es, i, key)
  {
    var i :| 0 <= i < |es| && es[i].active && Name(es[i].key) == key;
    assert Holds(es, i, key);
  }

  ghost function Slot(es: seq<Entry>, key: Bytes): (i: nat)
    requires key in Keys(es)
    ensures Holds(es, i, key)
  {
    SlotExists(es, key);
    var i: nat :| Holds(es, i, key); i
  }

  function Value(e: Entry): Bytes
    requires EntryOk(e)
  {
    e.val[..e.valLen]
  }

  /** The map the array stands for. */
  ghost function View(es: seq<Entry>): (m: map<Bytes, Bytes>)
    requires StoreInv(es)
    ensures m.Keys == Keys(es)
  {
    map key | key in Keys(es) :: Value(es[Slot(es, key)])
  }

  lemma SlotUnique(es: seq<Entry>, i: nat, j: nat, key: Bytes)
    requires StoreInv(es) && Holds(es, i, key) && Holds(es, j, key)
    ensures i == j
  {}

  lemma ViewAt(es: seq<Entry>, i: nat, key: Bytes)
    requires StoreInv(es) && Holds(es, i, key)
    ensures key in View(es) && View(es)[key] == Value(es[i])
  {
    SlotUnique(es, i, Slot(es, key), key);
  }

  /** A map that agrees with every active slot, and with nothing else, is the view. */
  lemma ViewIs(es: seq<Entry>, m: map<Bytes, Bytes>)
    requires StoreInv(es)
    requires forall i: nat, key :: Holds(es, i, key) ==> key in m && m[key] == Value(es[i])
    requires forall key :: key in m ==> exists i: nat :: Holds(es, i, key)
    ensures View(es) == m
  {
    forall key
      ensures key in View(es) ==> key in m
    {
      if key in View(es) {
        SlotExists(es, key);
      }
    }
    forall key | key in m
      ensures key in View(es) && View(es)[key] == m[key]
    {
      var i: nat :| Holds(es, i, key);
      ViewAt(es, i, key);
    }
  }

  lemma EmptyStore()
    ensures StoreInv(Empty()) && View(Empty()) == map[]
  {
    NameOfPadded([], KEY_SIZE);
    assert [] + Zeros(KEY_SIZE) == Zeros(KEY_SIZE);
    assert Keys(Empty()) == {};
  }

  // ---------------------------------------------------------------- the scans

  predicate Hit(e: Entry, key: Bytes) {
    e.active && SameKey(e.key, key)
  }

  /** The first active slot with this key at or after `from`, or the array length. */
  function FindSlot(es: seq<Entry>, key: Bytes, from: nat): (i: nat)
    requires from <= |es|
    ensures from <= i <= |es|
    ensures i < |es| ==> Hit(es[i], key)
    ensures forall k :: from <= k < i ==> !Hit(es[k], key)
    decreases |es| - from
  {
    if from == |es| || Hit(es[from], key) then from else FindSlot(es, key, from + 1)
  }

  function FindFree(es: seq<Entry>, from: nat): (i: nat)
    requires from <= |es|
    ensures from <= i <= |es|
    ensures i < |es| ==> !es[i].active
    ensures forall k :: from <= k < i ==> es[k].active
    decreases |es| - from
  {
    if from == |es| || !es[from].active then from else FindFree(es, from + 1)
  }

  lemma HitIsHolds(es: seq<Entry>, i: nat, key: Bytes)
    requires StoreInv(es) && IsKey(key) && i < |es|
    ensures Hit(es[i], key) <==> Holds(es, i, key)
  {
    assert EntryOk(es[i]);
  }

  /** The scan finds a key exactly when the map has it. */
  lemma FindSlotView(es: seq<Entry>, key: Bytes)
    requires StoreInv(es) && IsKey(key)
    ensures FindSlot(es, key, 0) < |es| <==> key in View(es)
    ensures FindSlot(es, key, 0) < |es| ==> Holds(es, FindSlot(es, key, 0), key)
  {
    var i := FindSlot(es, key, 0);
    if i < |es| {
      HitIsHolds(es, i, key);
      ViewAt(es, i, key);
    }
    if key in View(es) {
      HitIsHolds(es, Slot(es, key), key);
    }
  }

  // ---------------------------------------------------------------- updates

  lemma KeepsApart(es: seq<Entry>, i: nat, e: Entry, key: Bytes)
    requires StoreInv(es) && i < |es|
    requires EntryOk(e) && e.active && Name(e.key) == key
    requires forall a: nat :: Holds(es, a, key) ==> a == i
    ensures StoreInv(es[i := e])
  {
    var after := es[i := e];
    forall a, b | 0 <= a < b < |after| && after[a].active && after[b].active ensures Name(after[a].key) != Name(after[b].key) {
      if a == i {
        assert !Holds(es, b, key);
      } else if b == i {
        assert !Holds(es, a, key);
      }
    }
  }

  /** Writing an entry for `key` into its own slot, or into a free one if it has none. */
  lemma PutView(es: seq<Entry>, i: nat, e: Entry, key: Bytes)
    requires StoreInv(es) && i < |es|
    requires EntryOk(e) && e.active && Name(e.key) == key
    requires forall a: nat :: Holds(es, a, key) ==> a == i
    requires es[i].active ==> Name(es[i].key) == key
    ensures StoreInv(es[i := e])
    ensures View(es[i := e]) == View(es)[key := Value(e)]
  {
    KeepsApart(es, i, e, key);
    var after, m := es[i := e], View(es)[key := Value(e)];
    forall a: nat, k | Holds(after, a, k) ensures k in m && m[k] == Value(after[a]) {
      if a != i {
        assert Holds(es, a, k);
        ViewAt(es, a, k);
      }
    }
    forall k | k in m ensures exists a: nat :: Holds(after, a, k) {
      if k == key {
        assert Holds(after, i, k);
      } else {
        assert Holds(after, Slot(es, k), k);
      }
    }
    ViewIs(after, m);
  }

  lemma BlankOk()
    ensures EntryOk(Blank())
  {
    NameOfPadded([], KEY_SIZE);
    assert [] + Zeros(KEY_SIZE) == Zeros(KEY_SIZE);
  }

  lemma DropHolds(es: seq<Entry>, i: nat, key: Bytes, a: nat, k: Bytes)
    requires StoreInv(es) && Holds(es, i, key)
    ensures Holds(es[i := Blank()], a, k) <==> Holds(es, a, k) && k != key
  {
    if Holds(es, a, k) && k == key { SlotUnique(es, a, i, key); }
  }

  /** Blanking the slot of a key removes it from the map. */
  lemma DropView(es: seq<Entry>, i: nat, key: Bytes)
    requires StoreInv(es) && Holds(es, i, key)
    ensures StoreInv(es[i := Blank()])
    ensures View(es[i := Blank()]) == View(es) - {key}
  {
    BlankOk();
    var after, m := es[i := Blank()], View(es) - {key};
    forall a: nat, k | Holds(after, a, k) ensures k in m && m[k] == Value(after[a]) {
      DropHolds(es, i, key, a, k);
      ViewAt(es, a, k);
    }
    forall k | k in m ensures exists a: nat :: Holds(after, a, k) {
      DropHolds(es, i, key, Slot(es, k), k);
      assert Holds(after, Slot(es, k), k);
    }
    ViewIs(after, m);
  }

  /** The slot contents after storing val: bytes of an older, longer value stay behind it. */
  function Stored(e: Entry, key: Bytes, val: Bytes): Entry
    requires |val| <= |e.val| && |key| < KEY_SIZE
  {
    Entry(if e.active then e.key else KeyField(key), val + e.val[|val|..], |val|, 0, true)
  }

  /** Why embediq_nvm_set refuses. */
  datatype Refusal = ValueTooLong | KeyTooLong | FactoryKey | StoreFull

  function SetRefusal(es: seq<Entry>, factory: set<Bytes>, key: Bytes, val: Bytes): Option<Refusal> {
    if |val| > VAL_SIZE then Some(ValueTooLong)
    else if |key| >= KEY_SIZE then Some(KeyTooLong)
    else if key in factory then Some(FactoryKey)
    else if SetSlot(es, key) == |es| then Some(StoreFull)
    else None
  }

  /** The slot a key is stored in: its own, else the first free one, else none. */
  function SetSlot(es: seq<Entry>, key: Bytes): (i: nat)
    ensures i <= |es|
  {
    var i := FindSlot(es, key, 0);
    if i < |es| then i else FindFree(es, 0)
  }

  function SetEntries(es: seq<Entry>, key: Bytes, val: Bytes): (r: seq<Entry>)
    requires |key| < KEY_SIZE && SetSlot(es, key) < |es| && |val| <= |es[SetSlot(es, key)].val|
    ensures |r| == |es|
    ensures SlotsOk(es) ==> SlotsOk(r)
  {
    var i := SetSlot(es, key);
    es[i := Stored(es[i], key, val)]
  }

  function DeleteEntries(es: seq<Entry>, key: Bytes): (r: seq<Entry>)
    ensures |r| == |es|
    ensures SlotsOk(es) ==> SlotsOk(r)
  {
    var i := FindSlot(es, key, 0);
    if i < |es| then es[i := Blank()] else es
  }

  lemma StoredOk(e: Entry, key: Bytes, val: Bytes)
    requires EntryOk(e) && IsKey(key) && |key| < KEY_SIZE && |val| <= VAL_SIZE
    requires e.active ==> Name(e.key) == key
    ensures EntryOk(Stored(e, key, val))
    ensures Name(Stored(e, key, val).key) == key && Value(Stored(e, key, val)) == val
  {
    NameOfPadded(key, KEY_SIZE - |key|);
    assert KeyField(key)[KEY_SIZE - 1] == 0;
    FrontOf(val, e.val[|val|..]);
  }

  lemma FrontOf(a: Bytes, b: Bytes)
    ensures (a + b)[..|a|] == a
  {}

  /** The slot a key is stored in is its own or a free one, and no other slot holds the key. */
  lemma SetSlotOwn(es: seq<Entry>, key: Bytes)
    requires StoreInv(es) && IsKey(key) && SetSlot(es, key) < |es|
    ensures forall a: nat :: Holds(es, a, key) ==> a == SetSlot(es, key)
    ensures es[SetSlot(es, key)].active ==> Name(es[SetSlot(es, key)].key) == key
  {
    FindSlotView(es, key);
    forall a: nat | Holds(es, a, key) ensures a == SetSlot(es, key) {
      HitIsHolds(es, a, key);
      SlotUnique(es, a, FindSlot(es, key, 0), key);
    }
  }

  /** Setting a key updates the map at that key and nowhere else. */
  lemma SetView(es: seq<Entry>, key: Bytes, val: Bytes)
    requires StoreInv(es) && IsKey(key) && |key| < KEY_SIZE && |val| <= VAL_SIZE
    requires SetSlot(es, key) < |es| && EntryOk(es[SetSlot(es, key)])
    ensures StoreInv(SetEntries(es, key, val))
    ensures View(SetEntries(es, key, val)) == View(es)[key := val]
  {
    var i := SetSlot(es, key);
    SetSlotOwn(es, key);
    StoredOk(es[i], key, val);
    PutView(es, i, Stored(es[i], key, val), key);
  }

  /** Deleting a key removes exactly it; deleting an absent key changes nothing. */
  lemma DeleteView(es: seq<Entry>, key: Bytes)
    requires StoreInv(es) && IsKey(key)
    ensures StoreInv(DeleteEntries(es, key))
    ensures View(DeleteEntries(es, key)) == View(es) - {key}
  {
    FindSlotView(es, key);
    var i := FindSlot(es, key, 0);
    if i < |es| {
      DropView(es, i, key);
    }
  }

  /** A set is refused for want of room exactly when 64 other keys are stored. */
  lemma FullIff(es: seq<Entry>, key: Bytes)
    requires StoreInv(es) && IsKey(key)
    ensures SetSlot(es, key) == |es| <==> key !in View(es) && |View(es)| == MAX_KEYS
  {
    FindSlotView(es, key);
    ActiveCount(es, MAX_KEYS);
    assert View(es).Keys == KeysUpTo(es, MAX_KEYS);
    if FindFree(es, 0) == |es| {
      assert Actives(es, MAX_KEYS) == MAX_KEYS by { AllActive(es, MAX_KEYS); }
    } else {
      SomeFree(es, MAX_KEYS, FindFree(es, 0));
    }
  }

  ghost function KeysUpTo(es: seq<Entry>, n: nat): set<Bytes>
    requires n <= |es|
  {
    set i | 0 <= i < n && es[i].active :: Name(es[i].key)
  }

  function Actives(es: seq<Entry>, n: nat): (c: nat)
    requires n <= |es|
    ensures c <= n
  {
    if n == 0 then 0 else Actives(es, n - 1) + if es[n - 1].active then 1 else 0
  }

  lemma FreshKey(es: seq<Entry>, n: nat)
    requires StoreInv(es) && n < |es| && es[n].active
    ensures Name(es[n].key) !in KeysUpTo(es, n)
  {}

  lemma KeysGrow(es: seq<Entry>, n: nat)
    requires n < |es| && (es[n].active ==> Name(es[n].key) !in KeysUpTo(es, n))
    ensures |KeysUpTo(es, n + 1)| == |KeysUpTo(es, n)| + if es[n].active then 1 else 0
  {
    var was, now := KeysUpTo(es, n), KeysUpTo(es, n + 1);
    if es[n].active {
      assert now == was + {Name(es[n].key)};
    } else {
      assert now == was;
    }
  }

  /** Distinct active keys: as many map entries as active slots. */
  lemma {:induction false} ActiveCount(es: seq<Entry>, n: nat)
    requires StoreInv(es) && n <= |es|
    ensures |KeysUpTo(es, n)| == Actives(es, n)
  {
    if n == 0 {
      assert KeysUpTo(es, 0) == {};
    } else {
      ActiveCount(es, n - 1);
      OneMoreKey(es, n - 1);
    }
  }

  lemma OneMoreKey(es: seq<Entry>, n: nat)
    requires StoreInv(es) && n < |es| && |KeysUpTo(es, n)| == Actives(es, n)
    ensures |KeysUpTo(es, n + 1)| == Actives(es, n + 1)
  {
    if es[n].active {
      FreshKey(es, n);
    }
    KeysGrow(es, n);
  }

  lemma {:induction false} AllActive(es: seq<Entry>, n: nat)
    requires n <= |es| && forall k :: 0 <= k < n ==> es[k].active
    ensures Actives(es, n) == n
  {
    if n > 0 { AllActive(es, n - 1); }
  }

  lemma {:induction false} SomeFree(es: seq<Entry>, n: nat, i: nat)
    requires i < n <= |es| && !es[i].active
    ensures Actives(es, n) < n
  {
    if i < n - 1 { SomeFree(es, n - 1, i); }
  }
}
