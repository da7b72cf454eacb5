/** What a reload makes of a store image whose end was lost (fbs/drivers/fb_nvm.c nvm_load after
    hal/posix/peripherals/hal_flash_posix.c renamed a file that fclose could not complete). */
module NvmSalvage {
  import opened NvmStore
  import opened NvmImage
  import opened Flash
  import Crc32

  /** The array loaded from the first n bytes of the image, the rest reading as zero. */
  function Salvage(es: seq<Entry>, n: nat): (r: seq<Entry>)
    requires SlotsOk(es)
    ensures |r| == MAX_KEYS
  {
    Load(Torn(Image(es), n))
  }

  /** The bytes that were lost are all zero. */
  predicate ZeroTail(es: seq<Entry>, n: nat)
    requires SlotsOk(es)
  {
    forall i :: n <= i < IMAGE_SIZE ==> Image(es)[i] == 0
  }

  // ---------------------------------------------------------------- one entry

  lemma CutPair(lo: bv8, hi: bv8, a: bv8, b: bv8)
    requires (a == lo || a == 0) && (b == hi || b == 0)
    ensures U16Of(a, b) <= U16Of(lo, hi)
    ensures U16Of(a, b) == U16Of(lo, hi) ==> a == lo && b == hi
  {
    ZeroByte();
    SameValue(a, lo);
    SameValue(b, hi);
    PairOrder(lo as int, hi as int, a as int, b as int);
  }

  lemma PairOrder(lo: int, hi: int, a: int, b: int)
    requires 0 <= lo < 256 && 0 <= hi < 256 && (a == lo || a == 0) && (b == hi || b == 0)
    ensures a + 256 * b <= lo + 256 * hi
    ensures a + 256 * b == lo + 256 * hi ==> a == lo && b == hi
  {}

  lemma LastIsPadding(e: Entry)
    requires EntryOk(e)
    ensures EncodeEntry(e)[133] == 0
  {}

  /** An entry that lost bytes is inactive, or is whole but for its padding. */
  lemma CutEntry(e: Entry, n: int)
    requires EntryOk(e)
    ensures var r := DecodeEntry(Torn(EncodeEntry(e), n));
            && EntryOk(r) && (n >= 133 ==> r == e) && (n < 133 ==> !r.active)
            && (r == e ==> Torn(EncodeEntry(e), n) == EncodeEntry(e))
  {
    EntryRoundTrip(e);
    LastIsPadding(e);
    CutBytes(EncodeEntry(e), n);
  }

  lemma CutBytes(b: Bytes, n: int)
    requires |b| == ENTRY_SIZE && b[133] == 0 && EntryOk(DecodeEntry(b))
    ensures var e, r := DecodeEntry(b), DecodeEntry(Torn(b, n));
            && EntryOk(r) && (n >= 133 ==> r == e) && (n < 133 ==> !r.active)
            && (r == e ==> Torn(b, n) == b)
  {
    var r := Torn(b, n);
    CutPair(b[128], b[129], r[128], r[129]);
    CutPair(b[130], b[131], r[130], r[131]);
    assert b[63] == b[..64][63] && r[63] == r[..64][63];
    if n >= 133 {
      assert r == b;
    } else {
      assert r[132] == 0;
      if DecodeEntry(r) == DecodeEntry(b) {
        WholeCut(b, n);
      }
    }
  }

  /** An inactive entry that decodes the same has lost nothing. */
  lemma WholeCut(b: Bytes, n: int)
    requires |b| == ENTRY_SIZE && b[133] == 0 && n < 133 && DecodeEntry(Torn(b, n)) == DecodeEntry(b)
    ensures Torn(b, n) == b
  {
    var r := Torn(b, n);
    CutPair(b[128], b[129], r[128], r[129]);
    CutPair(b[130], b[131], r[130], r[131]);
    EntryParts(DecodeEntry(b), b, r);
    SameFields(b, r);
  }

  lemma EntryParts(e: Entry, b: Bytes, r: Bytes)
    requires |b| == |r| == ENTRY_SIZE && e == DecodeEntry(b) == DecodeEntry(r)
    ensures r[..64] == b[..64] && r[64..128] == b[64..128] && ((r[132] == 0) == (b[132] == 0))
    ensures U16Of(r[128], r[129]) == U16Of(b[128], b[129]) && U16Of(r[130], r[131]) == U16Of(b[130], b[131])
  {}

  lemma SameFields(b: Bytes, r: Bytes)
    requires |b| == |r| == ENTRY_SIZE
    requires b[..64] == r[..64] && b[64..128] == r[64..128]
    requires b[128] == r[128] && b[129] == r[129] && b[130] == r[130] && b[131] == r[131]
    requires b[132] == r[132] && b[133] == r[133]
    ensures b == r
  {
    forall i | 0 <= i < ENTRY_SIZE
      ensures b[i] == r[i]
    {
      if i < 64 {
        assert b[..64][i] == r[..64][i];
      } else if i < 128 {
        assert b[64..128][i - 64] == r[64..128][i - 64];
      }
    }
  }

  // ---------------------------------------------------------------- all entries

  lemma CutConcat(a: Bytes, b: Bytes, n: int)
    ensures Torn(a + b, n) == Torn(a, n) + Torn(b, n - |a|)
  {}

  /** Every slot of r is a slot of es, or inactive. */
  ghost predicate Thinned(es: seq<Entry>, r: seq<Entry>) {
    |r| == |es| && forall i :: 0 <= i < |r| ==> EntryOk(r[i]) && (r[i] == es[i] || !r[i].active)
  }

  /** The entries read from a payload whose end was lost: whole ones, then inactive ones. */
  lemma {:induction false} CutAll(es: seq<Entry>, n: int)
    requires forall i :: 0 <= i < |es| ==> EntryOk(es[i])
    ensures var p, r := EncodeAll(es), DecodeAll(Torn(EncodeAll(es), n));
            Thinned(es, r) && (r == es ==> Torn(p, n) == p)
  {
    if es != [] {
      var first, rest := EncodeEntry(es[0]), EncodeAll(es[1..]);
      CutConcat(first, rest, n);
      CutAll(es[1..], n - ENTRY_SIZE);
      CutEntry(es[0], n);
      DecodeStep(Torn(first, n), Torn(rest, n - ENTRY_SIZE));
      CutStep(es, n, DecodeEntry(Torn(first, n)), DecodeAll(Torn(rest, n - ENTRY_SIZE)));
    }
  }

  lemma {:induction false} CutToNothing(es: seq<Entry>, n: int, blank: Entry)
    requires n <= 0 && forall i :: 0 <= i < |es| ==> EntryOk(es[i])
    requires blank == DecodeEntry(Zeros(ENTRY_SIZE))
    ensures DecodeAll(Torn(EncodeAll(es), n)) == Repeat(blank, |es|)
  {
    if es != [] {
      CutToNothing(es[1..], n - ENTRY_SIZE, blank);
      AllCut(EncodeEntry(es[0]), n);
      CutConcat(EncodeEntry(es[0]), EncodeAll(es[1..]), n);
      Prepended(Zeros(ENTRY_SIZE), Torn(EncodeAll(es[1..]), n - ENTRY_SIZE), blank, |es| - 1);
    }
  }

  lemma AllCut(b: Bytes, n: int)
    requires n <= 0
    ensures Torn(b, n) == Zeros(|b|)
  {}

  lemma ZerosDecode()
    ensures DecodeEntry(Zeros(ENTRY_SIZE)) == Blank()
  {
    var r := Zeros(ENTRY_SIZE);
    assert r[..64] == Zeros(64) && r[64..128] == Zeros(64);
    ZeroByte();
  }

  function Repeat(e: Entry, n: nat): (r: seq<Entry>)
    ensures |r| == n && forall i :: 0 <= i < n ==> r[i] == e
  {
    seq(n, _ => e)
  }

  lemma Prepended(first: Bytes, rest: Bytes, e: Entry, n: nat)
    requires |first| == ENTRY_SIZE && DecodeEntry(first) == e && DecodeAll(rest) == Repeat(e, n)
    ensures DecodeAll(first + rest) == Repeat(e, n + 1)
  {
    DecodeStep(first, rest);
    assert [e] + Repeat(e, n) == Repeat(e, n + 1);
  }

  lemma DecodeStep(first: Bytes, rest: Bytes)
    requires |first| == ENTRY_SIZE
    ensures DecodeAll(first + rest) == [DecodeEntry(first)] + DecodeAll(rest)
  {
    assert (first + rest)[..ENTRY_SIZE] == first && (first + rest)[ENTRY_SIZE..] == rest;
  }

  lemma CutStep(es: seq<Entry>, n: int, e: Entry, r: seq<Entry>)
    requires es != [] && Thinned(es[1..], r) && EntryOk(e) && (e == es[0] || !e.active)
    ensures Thinned(es, [e] + r)
    ensures [e] + r == es ==> e == es[0] && r == es[1..]
  {
    var all := [e] + r;
    forall i | 0 <= i < |all|
      ensures EntryOk(all[i]) && (all[i] == es[i] || !all[i].active)
    {
      if i > 0 {
        assert all[i] == r[i - 1] && es[i] == es[1..][i - 1];
      }
    }
    if all == es {
      assert all[0] == e && all[1..] == r;
    }
  }

  /** A thinned store holds part of the map: no key gets another value, and none is invented. */
  lemma ThinnedView(es: seq<Entry>, r: seq<Entry>)
    requires StoreInv(es) && Thinned(es, r)
    ensures StoreInv(r)
    ensures forall key :: key in View(r) ==> key in View(es) && View(r)[key] == View(es)[key]
  {
    forall i, j | 0 <= i < j < |r| && r[i].active && r[j].active
      ensures Name(r[i].key) != Name(r[j].key)
    {
      assert r[i] == es[i] && r[j] == es[j];
    }
    forall key | key in View(r)
      ensures key in View(es) && View(r)[key] == View(es)[key]
    {
      var i := Slot(r, key);
      assert Holds(r, i, key) && r[i] == es[i];
      assert Holds(es, i, key);
      ViewAt(r, i, key);
      ViewAt(es, i, key);
    }
  }

  // ---------------------------------------------------------------- the image

  lemma CutParts(img: Bytes, n: nat)
    requires |img| == IMAGE_SIZE
    ensures var c := Torn(img, n);
            && c[HEADER_SIZE..] == Torn(img[HEADER_SIZE..], n - HEADER_SIZE)
            && (n >= HEADER_SIZE ==> c[..4] == img[..4] && c[8..12] == img[8..12])
  {}

  /** The payload lost bytes that were not zero, and its checksum is still the one in the header. */
  ghost predicate Collides(es: seq<Entry>, n: nat)
    requires SlotsOk(es)
  {
    var lost := Torn(EncodeAll(es), n - HEADER_SIZE);
    n > HEADER_SIZE && lost != EncodeAll(es) && Crc32.Checksum(lost) == Crc32.Checksum(EncodeAll(es))
  }

  /** What the checksum of the saved entries decides about a payload. */
  function Judged(es: seq<Entry>, payload: Bytes): seq<Entry>
    requires SlotsOk(es)
  {
    if Crc32.Checksum(payload) == Crc32.Checksum(EncodeAll(es)) then DecodeAll(payload) else Empty()
  }

  lemma AcceptJudges(es: seq<Entry>, payload: Bytes)
    requires SlotsOk(es) && |payload| == IMAGE_SIZE - HEADER_SIZE
    ensures Accept(MAGIC, CrcBytes(Crc32.Checksum(EncodeAll(es))), payload) == Judged(es, payload)
  {
    CrcRoundTrip(Crc32.Checksum(EncodeAll(es)));
  }

  lemma BlanksAreEmpty(r: seq<Entry>)
    requires |r| == MAX_KEYS && forall i :: 0 <= i < |r| ==> r[i] == Blank()
    ensures r == Empty()
  {}

  lemma SalvageCases(es: seq<Entry>, n: nat)
    requires SlotsOk(es)
    ensures var lost := Torn(EncodeAll(es), n - HEADER_SIZE);
            Salvage(es, n) == if n <= HEADER_SIZE then Empty() else Judged(es, lost)
  {
    if n <= HEADER_SIZE {
      HeaderSalvage(es, n);
    } else {
      ImageParts(es);
      CutParts(Image(es), n);
      AcceptJudges(es, Torn(EncodeAll(es), n - HEADER_SIZE));
    }
  }

  /** Without the payload, whatever the header says, the loader finds the empty store. */
  lemma HeaderSalvage(es: seq<Entry>, n: nat)
    requires SlotsOk(es) && n <= HEADER_SIZE
    ensures Salvage(es, n) == Empty()
  {
    ImageParts(es);
    CutParts(Image(es), n);
    ZerosDecode();
    CutToNothing(es, n - HEADER_SIZE, Blank());
    BlanksAreEmpty(DecodeAll(Torn(EncodeAll(es), n - HEADER_SIZE)));
  }

  lemma TailIsPayload(es: seq<Entry>, n: nat)
    requires SlotsOk(es)
    ensures ZeroTail(es, n) ==> Torn(EncodeAll(es), n - HEADER_SIZE) == EncodeAll(es)
    ensures n > HEADER_SIZE && Torn(EncodeAll(es), n - HEADER_SIZE) == EncodeAll(es) ==> ZeroTail(es, n)
  {
    ImageParts(es);
    var img, p := Image(es), EncodeAll(es);
    forall i | 0 <= i < |p|
      ensures img[HEADER_SIZE + i] == p[i]
    {
      assert img[HEADER_SIZE..][i] == p[i];
    }
    if ZeroTail(es, n) {
      forall i | 0 <= i < |p| && i >= n - HEADER_SIZE
        ensures p[i] == 0
      {
        assert img[HEADER_SIZE + i] == 0;
      }
    }
    if n > HEADER_SIZE && Torn(p, n - HEADER_SIZE) == p {
      forall i | n <= i < IMAGE_SIZE
        ensures img[i] == 0
      {
        assert img[HEADER_SIZE + (i - HEADER_SIZE)] == p[i - HEADER_SIZE] == Torn(p, n - HEADER_SIZE)[i - HEADER_SIZE];
      }
    }
  }

  lemma NothingLeft(es: seq<Entry>, n: int)
    requires SlotsOk(es) && n <= 0
    ensures DecodeAll(Torn(EncodeAll(es), n)) == Empty()
  {
    ZerosDecode();
    CutToNothing(es, n, Blank());
    BlanksAreEmpty(Repeat(Blank(), MAX_KEYS));
  }

  /** Cutting the encoding of the empty store changes nothing. */
  lemma CutOfEmpty(n: int)
    requires SlotsOk(Empty())
    ensures Torn(EncodeAll(Empty()), n) == EncodeAll(Empty())
  {
    EmptyCut(Empty());
    CutOfZeros(EncodeAll(Empty()), n);
  }

  lemma EmptyCut(es: seq<Entry>)
    requires SlotsOk(es) && es == Empty()
    ensures Torn(EncodeAll(es), 0) == EncodeAll(es)
  {
    CutAll(es, 0);
    NothingLeft(es, 0);
  }

  lemma CutOfZeros(p: Bytes, n: int)
    requires Torn(p, 0) == p
    ensures Torn(p, n) == p
  {
    assert forall i :: 0 <= i < |p| ==> p[i] == Torn(p, 0)[i] == 0;
  }

  lemma OnlyHeaderLeft(es: seq<Entry>, n: nat)
    requires SlotsOk(es) && n <= HEADER_SIZE && ZeroTail(es, n)
    ensures es == Empty()
  {
    TailIsPayload(es, n);
    EntriesRoundTrip(es);
    NothingLeft(es, n - HEADER_SIZE);
  }

  /** Decoding is one to one on what can be left of an encoding. */
  lemma CutDecodes(es: seq<Entry>, n: int)
    requires SlotsOk(es)
    ensures DecodeAll(Torn(EncodeAll(es), n)) == es <==> Torn(EncodeAll(es), n) == EncodeAll(es)
  {
    CutAll(es, n);
    EntriesRoundTrip(es);
  }

  lemma PayloadLeft(es: seq<Entry>, n: nat)
    requires SlotsOk(es) && es != Empty() && n > HEADER_SIZE
    ensures Salvage(es, n) == es <==> ZeroTail(es, n)
    ensures Salvage(es, n) != es && Salvage(es, n) != Empty() ==> Collides(es, n)
  {
    SalvageCases(es, n);
    TailIsPayload(es, n);
    CutDecodes(es, n - HEADER_SIZE);
  }

  lemma EmptyLeft(n: nat)
    requires SlotsOk(Empty())
    ensures Salvage(Empty(), n) == Empty()
  {
    SalvageCases(Empty(), n);
    CutOfEmpty(n - HEADER_SIZE);
    EntriesRoundTrip(Empty());
  }

  lemma WholeIff(es: seq<Entry>, n: nat)
    requires SlotsOk(es) && SlotsOk(Empty())
    ensures Salvage(es, n) == es <==> es == Empty() || ZeroTail(es, n)
    ensures Salvage(es, n) != es && Salvage(es, n) != Empty() ==> Collides(es, n)
  {
    if es == Empty() {
      EmptyLeft(n);
    } else if n > HEADER_SIZE {
      PayloadLeft(es, n);
    } else {
      SalvageCases(es, n);
      if ZeroTail(es, n) {
        OnlyHeaderLeft(es, n);
      }
    }
  }

  /** After the end of an image was lost: the saved store loads if and only if it is empty or every lost byte
      was zero; anything that is neither it nor the empty store takes a checksum collision, and even then
      is a part of what was saved. */
  lemma SalvageOutcome(es: seq<Entry>, n: nat)
    requires StoreInv(es)
    ensures Salvage(es, n) == es <==> es == Empty() || ZeroTail(es, n)
    ensures Salvage(es, n) != es && Salvage(es, n) != Empty() ==> Collides(es, n)
    ensures StoreInv(Salvage(es, n))
    ensures forall key :: key in View(Salvage(es, n)) ==> key in View(es) && View(Salvage(es, n))[key] == View(es)[key]
  {
    EmptyStore();
    WholeIff(es, n);
    SalvageThinned(es, n);
  }

  lemma SalvageThinned(es: seq<Entry>, n: nat)
    requires StoreInv(es)
    ensures StoreInv(Salvage(es, n))
    ensures forall key :: key in View(Salvage(es, n)) ==> key in View(es) && View(Salvage(es, n))[key] == View(es)[key]
  {
    EmptyStore();
    SalvageThins(es, n);
    if Salvage(es, n) != Empty() {
      ThinnedView(es, Salvage(es, n));
    }
  }

  lemma SalvageThins(es: seq<Entry>, n: nat)
    requires SlotsOk(es)
    ensures Salvage(es, n) == Empty() || Thinned(es, Salvage(es, n))
  {
    SalvageCases(es, n);
    CutAll(es, n - HEADER_SIZE);
  }

  /** A lost tail whose bytes other than zero lie within 4 consecutive ones is always noticed. */
  lemma ShortLossDetected(es: seq<Entry>, n: nat, start: nat)
    requires SlotsOk(es)
    requires forall i :: n <= i < IMAGE_SIZE && Image(es)[i] != 0 ==> start <= i < start + 4
    ensures Salvage(es, n) == es || Salvage(es, n) == Empty()
  {
    CorruptionDetected(es, Torn(Image(es), n), start);
  }
}
