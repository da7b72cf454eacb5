/** Where the fields of the persisted store stand (fbs/drivers/fb_nvm.c, tools/config_iq/embediq_nvs_gen.py), and what the
    getters make of stored bytes (core/src/cfg/embediq_cfg.c). */
module StoreLayout {
  import opened Wrappers
  import opened NvmStore
  import opened NvmImage
  import opened Config
  import ConfigBlob
  import Flash
  import Crc32

  /** The little-endian number in two bytes from an offset. */
  function Two(b: Bytes, at: nat): int
    requires at + 2 <= |b|
  {
    b[at] as int + 0x100 * b[at + 1] as int
  }

  lemma TwoBytes(n: nat)
    requires n < 0x1_0000
    ensures Two(U16Bytes(n), 0) == n
  {
    U16RoundTrip(n);
  }

  /** One entry: key, value, length, schema id, flag and one byte of padding. */
  lemma EntryLayout(e: Entry)
    requires EntryOk(e)
    ensures var b := EncodeEntry(e);
            && |b| == 134
            && b[0..64] == e.key && b[64..128] == e.val && Two(b, 128) == e.valLen && Two(b, 130) == e.schemaId
            && b[132] == (if e.active then 1 else 0) && b[133] == 0
  {
    var b := EncodeEntry(e);
    TwoBytes(e.valLen);
    TwoBytes(e.schemaId);
    assert b[128] == U16Bytes(e.valLen)[0] && b[129] == U16Bytes(e.valLen)[1];
    assert b[130] == U16Bytes(e.schemaId)[0] && b[131] == U16Bytes(e.schemaId)[1];
  }

  /** The header: magic, version 1.0, the number of entries, the checksum of the entries and four zero bytes. */
  lemma HeaderLayout(es: seq<Entry>)
    requires SlotsOk(es)
    ensures var b := Image(es);
            && |b| == 8592
            && b[0] == 0x45 && b[1] == 0x49 && b[2] == 0x51 && b[3] == 0 && b[4] == 1 && b[5] == 0
            && Two(b, 6) == 64
            && b[12] == b[13] == b[14] == b[15] == 0
    ensures var b, crc := Image(es), Crc32.Checksum(EncodeAll(es));
            && Image(es)[16..] == EncodeAll(es)
            && b[8] as bv32 == crc & 0xFF && b[9] as bv32 == (crc >> 8) & 0xFF
            && b[10] as bv32 == (crc >> 16) & 0xFF && b[11] as bv32 == (crc >> 24) & 0xFF
  {
    var b, crc := Image(es), Crc32.Checksum(EncodeAll(es));
    var h := Header(1, 0, MAX_KEYS, crc);
    HeaderBytes(1, 0, MAX_KEYS, crc);
    ImageParts(es);
    assert forall i :: 0 <= i < 16 ==> b[i] == h[i];
    assert Two(b, 6) == Two(h, 6);
    CrcDigits(crc);
    assert b[8] == CrcBytes(crc)[0] && b[9] == CrcBytes(crc)[1] && b[10] == CrcBytes(crc)[2] && b[11] == CrcBytes(crc)[3];
  }

  lemma HeaderBytes(major: bv8, minor: bv8, count: nat, crc: bv32)
    requires count < 0x1_0000
    ensures var h := Header(major, minor, count, crc);
            && h[0] == 0x45 && h[1] == 0x49 && h[2] == 0x51 && h[3] == 0 && h[4] == major && h[5] == minor
            && Two(h, 6) == count
            && h[8] == CrcBytes(crc)[0] && h[9] == CrcBytes(crc)[1] && h[10] == CrcBytes(crc)[2] && h[11] == CrcBytes(crc)[3]
            && h[12] == h[13] == h[14] == h[15] == 0
  {
    var h := Header(major, minor, count, crc);
    TwoBytes(count);
    assert h[6] == U16Bytes(count)[0] && h[7] == U16Bytes(count)[1];
  }

  lemma CrcDigits(c: bv32)
    ensures ((c & 0xFF) as bv8) as bv32 == c & 0xFF && (((c >> 8) & 0xFF) as bv8) as bv32 == (c >> 8) & 0xFF
    ensures (((c >> 16) & 0xFF) as bv8) as bv32 == (c >> 16) & 0xFF && (((c >> 24) & 0xFF) as bv8) as bv32 == (c >> 24) & 0xFF
  {}

  /** Entry i of the array stands at 16 + 134 i of the image. */
  lemma {:induction false} EntriesLayout(es: seq<Entry>, i: nat)
    requires i < |es| && forall k :: 0 <= k < |es| ==> EntryOk(es[k])
    ensures 134 * i + 134 <= |EncodeAll(es)|
    ensures EncodeAll(es)[134 * i..134 * i + 134] == EncodeEntry(es[i])
  {
    var p := EncodeAll(es);
    assert p[..134] == EncodeEntry(es[0]) && p[134..] == EncodeAll(es[1..]);
    if i > 0 {
      EntriesLayout(es[1..], i - 1);
      assert p[134..][134 * (i - 1)..134 * (i - 1) + 134] == p[134 * i..134 * i + 134];
    }
  }

  /** A set stores the value in front of what the field held, its length and schema id 0, and turns the entry active. */
  lemma StoredFields(e: Entry, key: Bytes, val: Bytes)
    requires EntryOk(e) && |val| <= 64 && |key| < 64 && (e.active ==> SameKey(e.key, key)) && IsKey(key)
    ensures var s := Stored(e, key, val);
            && Name(s.key) == key && s.val[..|val|] == val && s.val[|val|..] == e.val[|val|..]
            && s.valLen == |val| && s.schemaId == 0 && s.active
  {
    NameOfPadded(key, 64 - |key|);
  }

  /** A write fits if it ends within the 64 KiB device; one that does not changes nothing. */
  lemma OutOfRange(d: Flash.Disk, addr: nat, data: Bytes, f: Flash.Fate)
    ensures Flash.Fits(addr, data) <==> addr + |data| <= 64 * 1024
    ensures addr + |data| > 64 * 1024 ==> Flash.Write(d, addr, data, f) == d == Flash.WriteBlind(d, addr, data, f)
  {}

  // ---------------------------------------------------------------- words and strings of the settings

  /** A stored word is little-endian, and a negative one two's complement. */
  lemma WordLayout(u: int, i: int)
    requires 0 <= u < U32_LIMIT && -I32_LIMIT <= i < I32_LIMIT
    ensures Two(U32Bytes(u), 0) + 0x1_0000 * Two(U32Bytes(u), 2) == u
    ensures Two(I32Bytes(i), 0) + 0x1_0000 * Two(I32Bytes(i), 2) == if i < 0 then i + 0x1_0000_0000 else i
  {
    U32RoundTrip(u);
    I32RoundTrip(i);
    WordSum(U32Bytes(u));
    WordSum(I32Bytes(i));
  }

  lemma WordSum(b: Bytes)
    requires |b| == 4
    ensures U32Of(b) == Two(b, 0) + 0x1_0000 * Two(b, 2)
  {}

  /** What get_str leaves before the terminator: the beginning of the stored string, or of the default for a missing
      one, as much as fits the buffer. */
  lemma StrIsPrefix(m: map<Bytes, Bytes>, key: Bytes, size: nat, dflt: Bytes)
    ensures var s, r := if key in m then m[key] else dflt, ReadStr(m, key, size, dflt);
            && r <= s
            && (size > 0 ==> |r| < size && (|s| < size ==> r == s) && (|s| >= size ==> |r| == size - 1))
  {}

  /** A getter gives its default exactly where nothing is stored under the key or what is stored has another length. */
  lemma OtherLength(m: map<Bytes, Bytes>, key: Bytes, d: int, db: bool, df: Single)
    ensures key !in m || |m[key]| != 4 ==> ReadU32(m, key, d) == d && ReadI32(m, key, d) == d && ReadFloat(m, key, df) == df
    ensures key !in m || |m[key]| != 1 ==> ReadBool(m, key, db) == db
    ensures key in m && |m[key]| == 4 ==> ReadFloat(m, key, df) == m[key] && 0 <= ReadU32(m, key, d) < U32_LIMIT
                                          && -I32_LIMIT <= ReadI32(m, key, d) < I32_LIMIT
                                          && (ReadI32(m, key, d) - ReadU32(m, key, d)) % U32_LIMIT == 0
    ensures key in m && |m[key]| == 1 ==> (ReadBool(m, key, db) <==> m[key] != [0])
  {
    if key in m && |m[key]| == 4 {
      WordSum(m[key]);
    }
    if key in m && |m[key]| == 1 {
      assert m[key] == [m[key][0]];
    }
  }

  // ---------------------------------------------------------------- the tool

  /** The tool accepts a string for a string, a bool for a bool, for the integer kinds an integer of the type that also
      lies in the declared range, and for a float a number that lies in the declared range and that a float can hold;
      nothing else. */
  lemma EncodesIff(value: ConfigBlob.Json, spec: ConfigBlob.Spec)
    requires spec.kind.Str? ==> spec.kind.maxLen <= 63
    ensures ConfigBlob.Encode(value, spec).Some? <==>
            match spec.kind
            case Str(_) => value.StrV?
            case Bool => value.BoolV?
            case U32 => value.IntV? && 0 <= value.n < 0x1_0000_0000 && InRange(value.n, spec.range)
            case I32 => value.IntV? && -0x8000_0000 <= value.n < 0x8000_0000 && InRange(value.n, spec.range)
            case F32(limits) =>
              (value.IntV? && value.single.Some? && InLimits(Some(value.n as real), limits))
              || (value.FloatV? && value.single.Some? && InLimits(value.x, limits))
    ensures ConfigBlob.Encode(value, spec).Some? && spec.kind.Str? ==>
              var b := ConfigBlob.Encode(value, spec).value;
              b <= value.s && |b| == if |value.s| > spec.kind.maxLen then spec.kind.maxLen else |value.s|
  {}

  predicate InRange(n: int, range: Option<(int, int)>) {
    range.None? || !(n < range.value.0 || n > range.value.1)
  }

  predicate InLimits(x: Option<real>, limits: Option<(real, real)>) {
    limits.None? || (x.Some? && !(x.value < limits.value.0 || x.value > limits.value.1))
  }

  /** The header of a blob at the offsets of the stored image: the versions of the command line and the number of items. */
  lemma BlobLayout(records: seq<Bytes>, major: nat, minor: nat)
    requires ConfigBlob.BuildBlob(records, major, minor).Some?
    ensures var b := ConfigBlob.BuildBlob(records, major, minor).value;
            && |b| >= 16
            && b[0] == 0x45 && b[1] == 0x49 && b[2] == 0x51 && b[3] == 0
            && b[4] as int == major && b[5] as int == minor && Two(b, 6) == |records|
            && b[12] == b[13] == b[14] == b[15] == 0
  {
    var b := ConfigBlob.BuildBlob(records, major, minor).value;
    var crc := Crc32.Checksum(ConfigBlob.Payload(records));
    var h := ConfigBlob.BlobHeader(major, minor, |records|, crc);
    HeaderBytes(major as bv8, minor as bv8, |records|, crc);
    ByteOfInt(major);
    ByteOfInt(minor);
    assert forall i :: 0 <= i < 16 ==> b[i] == h[i];
    assert Two(b, 6) == Two(h, 6);
  }
}
