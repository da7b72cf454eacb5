/** Typed configuration: the C getters and setters (core/src/cfg/embediq_cfg.c) and the Python
    blob generator (tools/config_iq/embediq_nvs_gen.py) that must agree with them. */
module Config {
  import opened Wrappers
  import opened NvmStore
  import opened NvmImage
  import opened Flash
  import opened Nvm
  import Crc32

  const U32_LIMIT: int := 0x1_0000_0000
  const I32_LIMIT: int := 0x8000_0000

  /** A C float: the four bytes of its representation. */
  type Single = b: Bytes | |b| == 4 witness [0, 0, 0, 0]

  // ---------------------------------------------------------------- 32-bit words in memory

  function U32Bytes(n: int): (b: Bytes)
    requires 0 <= n < U32_LIMIT
    ensures |b| == 4
  {
    [(n % 256) as bv8, (n / 256 % 256) as bv8, (n / 65536 % 256) as bv8, (n / 16777216) as bv8]
  }

  function U32Of(b: Bytes): int
    requires |b| == 4
  {
    b[0] as int + 256 * (b[1] as int) + 65536 * (b[2] as int) + 16777216 * (b[3] as int)
  }

  lemma Digits(n: int)
    requires 0 <= n < U32_LIMIT
    ensures n % 256 + 256 * (n / 256 % 256) + 65536 * (n / 65536 % 256) + 16777216 * (n / 16777216) == n
  {
    assert n / 65536 == n / 256 / 256 && n / 16777216 == n / 65536 / 256;
  }

  lemma U32RoundTrip(n: int)
    requires 0 <= n < U32_LIMIT
    ensures U32Of(U32Bytes(n)) == n
  {
    ByteOfInt(n % 256);
    ByteOfInt(n / 256 % 256);
    ByteOfInt(n / 65536 % 256);
    ByteOfInt(n / 16777216);
    Digits(n);
  }

  /** Two's complement. */
  function I32Bytes(v: int): (b: Bytes)
    requires -I32_LIMIT <= v < I32_LIMIT
    ensures |b| == 4
  {
    U32Bytes(if v < 0 then v + U32_LIMIT else v)
  }

  function I32Of(b: Bytes): int
    requires |b| == 4
  {
    var n := U32Of(b);
    if n >= I32_LIMIT then n - U32_LIMIT else n
  }

  lemma I32RoundTrip(v: int)
    requires -I32_LIMIT <= v < I32_LIMIT
    ensures I32Of(I32Bytes(v)) == v
  {
    U32RoundTrip(if v < 0 then v + U32_LIMIT else v);
  }

  // ---------------------------------------------------------------- typed reads of the map

  function Cut(s: Bytes, n: nat): (r: Bytes)
    ensures |r| <= n
  {
    if |s| <= n then s else s[..n]
  }

  function ReadU32(m: map<Bytes, Bytes>, key: Bytes, dflt: int): int {
    if key in m && |m[key]| == 4 then U32Of(m[key]) else dflt
  }

  function ReadI32(m: map<Bytes, Bytes>, key: Bytes, dflt: int): int {
    if key in m && |m[key]| == 4 then I32Of(m[key]) else dflt
  }

  function ReadBool(m: map<Bytes, Bytes>, key: Bytes, dflt: bool): bool {
    if key in m && |m[key]| == 1 then m[key][0] != 0 else dflt
  }

  function ReadFloat(m: map<Bytes, Bytes>, key: Bytes, dflt: Single): Single {
    if key in m && |m[key]| == 4 then m[key] else dflt
  }

  /** The bytes before the terminator in a caller's buffer of `size` bytes. */
  function ReadStr(m: map<Bytes, Bytes>, key: Bytes, size: nat, dflt: Bytes): Bytes {
    if size == 0 then [] else Cut(if key in m then m[key] else dflt, size - 1)
  }

  method GetU32(store: Store, key: Bytes, dflt: int) returns (v: int)
    requires store.Valid() && StoreInv(store.slots[..]) && IsKey(key)
    ensures v == ReadU32(View(store.slots[..]), key, dflt)
  {
    var raw := store.Get(key, 4);
    if raw.None? || |raw.value| != 4 {
      return dflt;
    }
    v := U32Of(raw.value);
  }

  method GetI32(store: Store, key: Bytes, dflt: int) returns (v: int)
    requires store.Valid() && StoreInv(store.slots[..]) && IsKey(key)
    ensures v == ReadI32(View(store.slots[..]), key, dflt)
  {
    var raw := store.Get(key, 4);
    if raw.None? || |raw.value| != 4 {
      return dflt;
    }
    v := I32Of(raw.value);
  }

  method GetBool(store: Store, key: Bytes, dflt: bool) returns (v: bool)
    requires store.Valid() && StoreInv(store.slots[..]) && IsKey(key)
    ensures v == ReadBool(View(store.slots[..]), key, dflt)
  {
    var raw := store.Get(key, 1);
    if raw.None? || |raw.value| != 1 {
      return dflt;
    }
    v := raw.value[0] != 0;
  }

  method GetFloat(store: Store, key: Bytes, dflt: Single) returns (v: Single)
    requires store.Valid() && StoreInv(store.slots[..]) && IsKey(key)
    ensures v == ReadFloat(View(store.slots[..]), key, dflt)
  {
    var raw := store.Get(key, 4);
    if raw.None? || |raw.value| != 4 {
      return dflt;
    }
    v := raw.value;
  }

  method GetStr(store: Store, key: Bytes, size: nat, dflt: Bytes) returns (s: Bytes)
    requires store.Valid() && StoreInv(store.slots[..]) && IsKey(key)
    ensures s == ReadStr(View(store.slots[..]), key, size, dflt)
  {
    if size == 0 {
      return [];
    }
    if key in View(store.slots[..]) { ValuesFit(store.slots[..], key); }
    var raw := store.Get(key, VAL_SIZE);
    s := Cut(if raw.Some? then raw.value else dflt, size - 1);
  }

  lemma ValuesFit(es: seq<Entry>, key: Bytes)
    requires StoreInv(es) && key in View(es)
    ensures |View(es)[key]| <= VAL_SIZE
  {
    assert EntryOk(es[Slot(es, key)]);
  }

  // ---------------------------------------------------------------- setters

  /** The embediq_nvm_set call that every setter ends in: it succeeds exactly when the map accepts the value. */
  method Put(store: Store, key: Bytes, val: Bytes, fate: Fate) returns (ok: bool)
    requires store.Valid() && StoreInv(store.slots[..]) && IsKey(key) && !Crashes(fate)
    modifies store.slots, store.device
    ensures store.Valid() && StoreInv(store.slots[..])
    ensures ok <==> ApplySpec(View(old(store.slots[..])), store.factory, Set(key, val)).Some?
    ensures View(store.slots[..]) == if ok then View(old(store.slots[..]))[key := val] else View(old(store.slots[..]))
    ensures !ok ==> store.device.disk == old(store.device.disk)
  {
    ghost var es := store.slots[..];
    var refused := store.SetKey(key, val, fate);
    ok := refused.None?;
    SetOutcome(es, store.slots[..], store.factory, key, val);
  }

  /** The array after a set, accepted or refused, as a map. */
  lemma SetOutcome(es: seq<Entry>, after: seq<Entry>, factory: set<Bytes>, key: Bytes, val: Bytes)
    requires StoreInv(es) && IsKey(key)
    requires match Apply(es, factory, Set(key, val)) case None => after == es case Some(r) => after == r
    ensures var ok := SetRefusal(es, factory, key, val).None?;
            && StoreInv(after) && (ok <==> ApplySpec(View(es), factory, Set(key, val)).Some?)
            && View(after) == if ok then View(es)[key := val] else View(es)
  {
    ApplyView(es, factory, Set(key, val));
  }

  method SetU32(store: Store, key: Bytes, v: int, fate: Fate) returns (ok: bool)
    requires store.Valid() && StoreInv(store.slots[..]) && IsKey(key) && !Crashes(fate)
    requires 0 <= v < U32_LIMIT
    modifies store.slots, store.device
    ensures store.Valid() && StoreInv(store.slots[..])
    ensures ok <==> ApplySpec(View(old(store.slots[..])), store.factory, Set(key, U32Bytes(v))).Some?
    ensures View(store.slots[..]) == if ok then View(old(store.slots[..]))[key := U32Bytes(v)] else View(old(store.slots[..]))
    ensures !ok ==> store.device.disk == old(store.device.disk)
  {
    ok := Put(store, key, U32Bytes(v), fate);
  }

  method SetI32(store: Store, key: Bytes, v: int, fate: Fate) returns (ok: bool)
    requires store.Valid() && StoreInv(store.slots[..]) && IsKey(key) && !Crashes(fate)
    requires -I32_LIMIT <= v < I32_LIMIT
    modifies store.slots, store.device
    ensures store.Valid() && StoreInv(store.slots[..])
    ensures ok <==> ApplySpec(View(old(store.slots[..])), store.factory, Set(key, I32Bytes(v))).Some?
    ensures View(store.slots[..]) == if ok then View(old(store.slots[..]))[key := I32Bytes(v)] else View(old(store.slots[..]))
    ensures !ok ==> store.device.disk == old(store.device.disk)
  {
    ok := Put(store, key, I32Bytes(v), fate);
  }

  method SetBool(store: Store, key: Bytes, v: bool, fate: Fate) returns (ok: bool)
    requires store.Valid() && StoreInv(store.slots[..]) && IsKey(key) && !Crashes(fate)
    modifies store.slots, store.device
    ensures store.Valid() && StoreInv(store.slots[..])
    ensures ok <==> ApplySpec(View(old(store.slots[..])), store.factory, Set(key, [FlagByte(v)])).Some?
    ensures View(store.slots[..]) == if ok then View(old(store.slots[..]))[key := [FlagByte(v)]] else View(old(store.slots[..]))
    ensures !ok ==> store.device.disk == old(store.device.disk)
  {
    ok := Put(store, key, [FlagByte(v)], fate);
  }

  method SetFloat(store: Store, key: Bytes, v: Single, fate: Fate) returns (ok: bool)
    requires store.Valid() && StoreInv(store.slots[..]) && IsKey(key) && !Crashes(fate)
    modifies store.slots, store.device
    ensures store.Valid() && StoreInv(store.slots[..])
    ensures ok <==> ApplySpec(View(old(store.slots[..])), store.factory, Set(key, v)).Some?
    ensures View(store.slots[..]) == if ok then View(old(store.slots[..]))[key := v] else View(old(store.slots[..]))
    ensures !ok ==> store.device.disk == old(store.device.disk)
  {
    ok := Put(store, key, v, fate);
  }

  /** The value is a C string; it is stored without its terminator. */
  method SetStr(store: Store, key: Bytes, v: Bytes, fate: Fate) returns (ok: bool)
    requires store.Valid() && StoreInv(store.slots[..]) && IsKey(key) && !Crashes(fate)
    modifies store.slots, store.device
    ensures store.Valid() && StoreInv(store.slots[..])
    ensures ok <==> ApplySpec(View(old(store.slots[..])), store.factory, Set(key, v)).Some?
    ensures View(store.slots[..]) == if ok then View(old(store.slots[..]))[key := v] else View(old(store.slots[..]))
    ensures !ok ==> store.device.disk == old(store.device.disk)
  {
    ok := Put(store, key, v, fate);
  }

  // ---------------------------------------------------------------- set, then get

  /** Every getter returns the same for this key from either map. */
  ghost predicate SameReads(m: map<Bytes, Bytes>, n: map<Bytes, Bytes>, key: Bytes) {
    && (forall d :: ReadU32(m, key, d) == ReadU32(n, key, d))
    && (forall d :: ReadI32(m, key, d) == ReadI32(n, key, d))
    && (forall d :: ReadBool(m, key, d) == ReadBool(n, key, d))
    && (forall d :: ReadFloat(m, key, d) == ReadFloat(n, key, d))
    && (forall size: nat, d :: ReadStr(m, key, size, d) == ReadStr(n, key, size, d))
  }

  /** What a setter stores is what its getter reads back, and every getter reads other keys as before. */
  lemma SetThenGet(m: map<Bytes, Bytes>, key: Bytes, other: Bytes, u: int, i: int, b: bool, f: Single, s: Bytes,
                   size: nat, d: int, db: bool, df: Single, ds: Bytes)
    requires 0 <= u < U32_LIMIT && -I32_LIMIT <= i < I32_LIMIT
    ensures ReadU32(m[key := U32Bytes(u)], key, d) == u
    ensures ReadI32(m[key := I32Bytes(i)], key, d) == i
    ensures ReadBool(m[key := [FlagByte(b)]], key, db) == b
    ensures ReadFloat(m[key := f], key, df) == f
    ensures ReadStr(m[key := s], key, size, ds) == if size == 0 then [] else Cut(s, size - 1)
    ensures other != key ==> SameReads(m[key := s], m, other)
  {
    U32RoundTrip(u);
    I32RoundTrip(i);
  }
}
