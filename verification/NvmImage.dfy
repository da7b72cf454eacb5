/** The persisted byte image of the store (fbs/drivers/fb_nvm.c, little-endian host): a 16-byte
    header and 64 packed entries of 134 bytes, protected by a CRC-32 over the entries. */
module NvmImage {
  import opened NvmStore
  import opened ByteStream
  import Crc32

  const ENTRY_SIZE: nat := 134
  const HEADER_SIZE: nat := 16
  const IMAGE_SIZE: nat := 8592
  const MAGIC: Bytes := [0x45, 0x49, 0x51, 0]

  // ---------------------------------------------------------------- little-endian words

  function U16Bytes(n: nat): (b: Bytes)
    requires n < 0x1_0000
    ensures |b| == 2
  {
    [(n % 256) as bv8, (n / 256) as bv8]
  }

  function U16Of(lo: bv8, hi: bv8): nat {
    lo as int + 256 * (hi as int)
  }

  lemma ByteOfInt(n: int)
    requires 0 <= n < 256
    ensures (n as bv8) as int == n
  {
    var v := ByteWith(n);
    SameByte(v, n);
  }

  lemma {:induction false} ByteWith(n: int) returns (v: bv8)
    requires 0 <= n < 256
    ensures v as int == n
  {
    if n == 0 {
      ZeroByte();
      v := 0;
    } else {
      var u := ByteWith(n - 1);
      NextByte(u);
      v := u + 1;
    }
  }

  lemma NextByte(v: bv8)
    ensures v as int < 255 ==> (v + 1) as int == v as int + 1
  {}

  lemma ZeroByte()
    ensures (0 as bv8) as int == 0
  {}

  lemma SameByte(v: bv8, n: int)
    requires 0 <= n < 256 && v as int == n
    ensures (n as bv8) as int == n
  {}

  /** Bytes with the same value are the same. */
  lemma SameValue(a: bv8, b: bv8)
    ensures a as int == b as int ==> a == b
  {}

  lemma U16RoundTrip(n: nat)
    requires n < 0x1_0000
    ensures U16Of(U16Bytes(n)[0], U16Bytes(n)[1]) == n
  {
    ByteOfInt(n % 256);
    ByteOfInt(n / 256);
  }

  function CrcBytes(c: bv32): (b: Bytes)
    ensures |b| == 4
  {
    [(c & 0xFF) as bv8, ((c >> 8) & 0xFF) as bv8, ((c >> 16) & 0xFF) as bv8, ((c >> 24) & 0xFF) as bv8]
  }

  function CrcOf(b: Bytes): bv32
    requires |b| == 4
  {
    (b[0] as bv32) | ((b[1] as bv32) << 8) | ((b[2] as bv32) << 16) | ((b[3] as bv32) << 24)
  }

  lemma CrcWord(c: bv32)
    ensures (((c & 0xFF) as bv8) as bv32) | (((((c >> 8) & 0xFF) as bv8) as bv32) << 8)
          | (((((c >> 16) & 0xFF) as bv8) as bv32) << 16) | (((((c >> 24) & 0xFF) as bv8) as bv32) << 24) == c
  {}

  lemma CrcRoundTrip(c: bv32)
    ensures CrcOf(CrcBytes(c)) == c
  {
    CrcWord(c);
  }

  lemma WordInjective(a0: bv8, a1: bv8, a2: bv8, a3: bv8, b0: bv8, b1: bv8, b2: bv8, b3: bv8)
    requires (a0 as bv32) | ((a1 as bv32) << 8) | ((a2 as bv32) << 16) | ((a3 as bv32) << 24)
          == (b0 as bv32) | ((b1 as bv32) << 8) | ((b2 as bv32) << 16) | ((b3 as bv32) << 24)
    ensures a0 == b0 && a1 == b1 && a2 == b2 && a3 == b3
  {}

  lemma CrcOfInjective(a: Bytes, b: Bytes)
    requires |a| == |b| == 4 && CrcOf(a) == CrcOf(b)
    ensures a == b
  {
    WordInjective(a[0], a[1], a[2], a[3], b[0], b[1], b[2], b[3]);
  }

  // ---------------------------------------------------------------- entries

  function FlagByte(active: bool): bv8 {
    if active then 1 else 0
  }

  /** nvm_entry_t with its one byte of trailing padding. */
  function EncodeEntry(e: Entry): (b: Bytes)
    requires EntryOk(e)
    ensures |b| == ENTRY_SIZE
  {
    e.key + e.val + U16Bytes(e.valLen) + U16Bytes(e.schemaId) + [FlagByte(e.active), 0]
  }

  function DecodeEntry(b: Bytes): Entry
    requires |b| == ENTRY_SIZE
  {
    Entry(b[..64], b[64..128], U16Of(b[128], b[129]), U16Of(b[130], b[131]), b[132] != 0)
  }

  lemma EntryRoundTrip(e: Entry)
    requires EntryOk(e)
    ensures DecodeEntry(EncodeEntry(e)) == e
  {
    var b := EncodeEntry(e);
    U16RoundTrip(e.valLen);
    U16RoundTrip(e.schemaId);
    assert b[..64] == e.key && b[64..128] == e.val;
    assert b[128] == U16Bytes(e.valLen)[0] && b[129] == U16Bytes(e.valLen)[1];
    assert b[130] == U16Bytes(e.schemaId)[0] && b[131] == U16Bytes(e.schemaId)[1];
    assert b[132] == FlagByte(e.active);
  }

  function EncodeAll(es: seq<Entry>): (p: Bytes)
    requires forall i :: 0 <= i < |es| ==> EntryOk(es[i])
    ensures |p| == ENTRY_SIZE * |es|
  {
    if es == [] then [] else EncodeEntry(es[0]) + EncodeAll(es[1..])
  }

  function DecodeAll(p: Bytes): (es: seq<Entry>)
    ensures |es| == |p| / ENTRY_SIZE
    decreases |p|
  {
    if |p| < ENTRY_SIZE then [] else [DecodeEntry(p[..ENTRY_SIZE])] + DecodeAll(p[ENTRY_SIZE..])
  }

  lemma {:induction false} EntriesRoundTrip(es: seq<Entry>)
    requires forall i :: 0 <= i < |es| ==> EntryOk(es[i])
    ensures DecodeAll(EncodeAll(es)) == es
  {
    if es != [] {
      var p := EncodeAll(es);
      assert p[..ENTRY_SIZE] == EncodeEntry(es[0]) && p[ENTRY_SIZE..] == EncodeAll(es[1..]);
      EntryRoundTrip(es[0]);
      EntriesRoundTrip(es[1..]);
    }
  }

  // ---------------------------------------------------------------- the image

  function Header(major: bv8, minor: bv8, count: nat, crc: bv32): (h: Bytes)
    requires count < 0x1_0000
    ensures |h| == HEADER_SIZE
    ensures h[..4] == MAGIC && h[8..12] == CrcBytes(crc)
  {
    MAGIC + [major, minor] + U16Bytes(count) + CrcBytes(crc) + [0, 0, 0, 0]
  }

  /** The image nvm_persist writes. */
  function Image(es: seq<Entry>): (img: Bytes)
    requires SlotsOk(es)
    ensures |img| == IMAGE_SIZE
  {
    var payload := EncodeAll(es);
    Header(1, 0, MAX_KEYS, Crc32.Checksum(payload)) + payload
  }

  /** What nvm_load makes of the bytes it read: the entries, or the empty store. */
  function Load(img: Bytes): (es: seq<Entry>)
    requires |img| == IMAGE_SIZE
    ensures |es| == MAX_KEYS
  {
    Accept(img[..4], img[8..12], img[HEADER_SIZE..])
  }

  function Accept(magic: Bytes, crc: Bytes, payload: Bytes): (es: seq<Entry>)
    requires |crc| == 4 && |payload| == IMAGE_SIZE - HEADER_SIZE
    ensures |es| == MAX_KEYS
  {
    if magic != MAGIC then Empty()
    else if Crc32.Checksum(payload) != CrcOf(crc) then Empty()
    else DecodeAll(payload)
  }

  lemma AcceptSaved(es: seq<Entry>)
    requires SlotsOk(es)
    ensures Accept(MAGIC, CrcBytes(Crc32.Checksum(EncodeAll(es))), EncodeAll(es)) == es
  {
    CrcRoundTrip(Crc32.Checksum(EncodeAll(es)));
    EntriesRoundTrip(es);
  }

  /** A header with any version and count, the right checksum, and the entries: loads as them. */
  lemma LoadBuilt(es: seq<Entry>, h: Bytes)
    requires SlotsOk(es)
    requires |h| == HEADER_SIZE && h[..4] == MAGIC && h[8..12] == CrcBytes(Crc32.Checksum(EncodeAll(es)))
    ensures Load(h + EncodeAll(es)) == es
  {
    AcceptSaved(es);
    Joined(h, EncodeAll(es));
  }

  lemma Joined(h: Bytes, p: Bytes)
    requires |h| == HEADER_SIZE
    ensures (h + p)[..4] == h[..4] && (h + p)[8..12] == h[8..12] && (h + p)[HEADER_SIZE..] == p
  {}

  lemma LoadImage(es: seq<Entry>)
    requires SlotsOk(es)
    ensures Load(Image(es)) == es
  {
    LoadBuilt(es, Header(1, 0, MAX_KEYS, Crc32.Checksum(EncodeAll(es))));
  }

  lemma LoadErased()
    ensures Load(Zeros(IMAGE_SIZE)) == Empty()
  {
    assert Zeros(IMAGE_SIZE)[..4][0] != MAGIC[0];
  }

  /** The part of the image that decides whether it loads: magic, checksum and entries. */
  predicate Guarded(i: nat) {
    i < 4 || 8 <= i < 12 || i >= HEADER_SIZE
  }

  /** Corruption of at most 4 consecutive bytes never yields a third store: the saved one if
      only unguarded header bytes changed, the empty one otherwise. */
  lemma CorruptionDetected(es: seq<Entry>, img: Bytes, start: nat)
    requires SlotsOk(es)
    requires |img| == IMAGE_SIZE
    requires forall i :: 0 <= i < IMAGE_SIZE && img[i] != Image(es)[i] ==> start <= i < start + 4
    ensures Load(img) ==
            if forall i :: 0 <= i < IMAGE_SIZE && Guarded(i) ==> img[i] == Image(es)[i] then es else Empty()
  {
    var good := Image(es);
    Parts(good, img);
    ImageParts(es);
    if good[HEADER_SIZE..] != img[HEADER_SIZE..] {
      PayloadChange(good, img, start);
      AcceptChanged(es, img[..4], good[8..12], img[HEADER_SIZE..]);
    } else {
      AcceptSame(es, img[..4], img[8..12]);
    }
  }

  lemma ImageParts(es: seq<Entry>)
    requires SlotsOk(es)
    ensures Image(es)[..4] == MAGIC && Image(es)[HEADER_SIZE..] == EncodeAll(es)
    ensures Image(es)[8..12] == CrcBytes(Crc32.Checksum(EncodeAll(es)))
  {
    Joined(Header(1, 0, MAX_KEYS, Crc32.Checksum(EncodeAll(es))), EncodeAll(es));
  }

  /** A window of 4 bytes that reaches the entries does not reach the checksum. */
  lemma PayloadChange(good: Bytes, img: Bytes, start: nat)
    requires |good| == |img| == IMAGE_SIZE && good[HEADER_SIZE..] != img[HEADER_SIZE..]
    requires forall i :: 0 <= i < IMAGE_SIZE && img[i] != good[i] ==> start <= i < start + 4
    ensures img[8..12] == good[8..12]
    ensures Crc32.Checksum(img[HEADER_SIZE..]) != Crc32.Checksum(good[HEADER_SIZE..])
  {
    var p, q := good[HEADER_SIZE..], img[HEADER_SIZE..];
    var i :| 0 <= i < |p| && p[i] != q[i];
    assert img[HEADER_SIZE + i] != good[HEADER_SIZE + i];
    var from := if start >= HEADER_SIZE then start - HEADER_SIZE else 0;
    forall k | 0 <= k < |p| && p[k] != q[k] ensures from <= k < from + 4 {
      assert img[HEADER_SIZE + k] != good[HEADER_SIZE + k];
    }
    ByteBurst(LsbFirst, p, q, from, 4);
    Crc32.BurstDetected(p, q, 8 * from);
  }

  lemma AcceptChanged(es: seq<Entry>, magic: Bytes, crc: Bytes, payload: Bytes)
    requires SlotsOk(es)
    requires |payload| == IMAGE_SIZE - HEADER_SIZE
    requires crc == CrcBytes(Crc32.Checksum(EncodeAll(es)))
    requires Crc32.Checksum(payload) != Crc32.Checksum(EncodeAll(es))
    ensures Accept(magic, crc, payload) == Empty()
  {
    CrcRoundTrip(Crc32.Checksum(EncodeAll(es)));
  }

  lemma AcceptSame(es: seq<Entry>, magic: Bytes, crc: Bytes)
    requires SlotsOk(es)
    requires |crc| == 4
    ensures Accept(magic, crc, EncodeAll(es)) ==
            if magic == MAGIC && crc == CrcBytes(Crc32.Checksum(EncodeAll(es))) then es else Empty()
  {
    var sum := Crc32.Checksum(EncodeAll(es));
    AcceptSaved(es);
    CrcRoundTrip(sum);
    if CrcOf(crc) == sum { CrcOfInjective(crc, CrcBytes(sum)); }
  }

  /** The guarded bytes agree exactly when the three parts do. */
  lemma Parts(a: Bytes, b: Bytes)
    requires |a| == |b| == IMAGE_SIZE
    ensures (forall i :: 0 <= i < IMAGE_SIZE && Guarded(i) ==> b[i] == a[i]) <==>
            a[..4] == b[..4] && a[8..12] == b[8..12] && a[HEADER_SIZE..] == b[HEADER_SIZE..]
  {
    if a[..4] == b[..4] && a[8..12] == b[8..12] && a[HEADER_SIZE..] == b[HEADER_SIZE..] {
      forall i | 0 <= i < IMAGE_SIZE && Guarded(i) ensures b[i] == a[i] {
        if i < 4 {
          assert a[..4][i] == b[..4][i];
        } else if i < 12 {
          assert a[8..12][i - 8] == b[8..12][i - 8];
        } else {
          assert a[HEADER_SIZE..][i - HEADER_SIZE] == b[HEADER_SIZE..][i - HEADER_SIZE];
        }
      }
    }
  }
}
