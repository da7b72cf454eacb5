/** File-backed flash (hal/posix/peripherals/hal_flash_posix.c): a write goes to a temporary
    file that is then renamed over the backing file.  The rename is atomic and durable. */
module Flash {
  import opened Wrappers
  import opened NvmStore

  const MAX_SIZE: nat := 0x1_0000

  datatype Disk = Disk(main: Option<Bytes>, tmp: Option<Bytes>)

  datatype Rc = Ok | ErrIo | ErrInvalid

  /** How a write_file ends: the temporary file cannot be opened, takes only part of the data, or cannot
      be renamed; everything succeeds; power is lost at some point; or fclose cannot flush what fwrite
      had buffered.  The code does not look at fclose, so it renames the kept part and reports success. */
  datatype Fate =
    | OpenFails
    | ShortWrite(written: nat)
    | RenameFails(kept: nat)
    | CloseFails(kept: nat)
    | Succeeds
    | PowerLossBefore
    | PowerLossWriting(written: nat)
    | PowerLossAfter

  predicate Crashes(f: Fate) {
    f.PowerLossBefore? || f.PowerLossWriting? || f.PowerLossAfter?
  }

  /** The whole new contents have replaced the old ones. */
  predicate Commits(f: Fate) {
    f.Succeeds? || f.PowerLossAfter?
  }

  /** The old contents are gone. */
  predicate Replaces(f: Fate) {
    Commits(f) || f.CloseFails?
  }

  function Prefix(buf: Bytes, n: nat): Bytes {
    if n < |buf| then buf[..n] else buf
  }

  function WriteFile(d: Disk, buf: Bytes, f: Fate): Disk {
    match f
    case OpenFails => d
    case ShortWrite(n) => d.(tmp := Some(Prefix(buf, n)))
    case RenameFails(n) => d.(tmp := Some(Prefix(buf, n)))
    case CloseFails(n) => Disk(Some(Prefix(buf, n)), None)
    case Succeeds => Disk(Some(buf), None)
    case PowerLossBefore => d
    case PowerLossWriting(n) => d.(tmp := Some(Prefix(buf, n)))
    case PowerLossAfter => Disk(Some(buf), None)
  }

  /** At most MAX_SIZE bytes are read back. */
  function ReadFile(d: Disk): (b: Bytes)
    ensures |b| <= MAX_SIZE
  {
    match d.main
    case None => []
    case Some(b) => Prefix(b, MAX_SIZE)
  }

  /** hal_flash_read: what the file does not cover reads as zero. */
  function Read(d: Disk, addr: nat, len: nat): (b: Bytes)
    ensures |b| == len
  {
    var file := ReadFile(d);
    seq(len, i requires 0 <= i < len => if addr + i < |file| then file[addr + i] else 0)
  }

  /** The file contents after overlaying data at addr. */
  function Overlay(file: Bytes, addr: nat, data: Bytes): (b: Bytes)
    ensures |b| == if addr + |data| > |file| then addr + |data| else |file|
  {
    var size := if addr + |data| > |file| then addr + |data| else |file|;
    seq(size, i requires 0 <= i < size =>
      if addr <= i < addr + |data| then data[i - addr] else if i < |file| then file[i] else 0)
  }

  predicate Fits(addr: nat, data: Bytes) {
    addr + |data| <= MAX_SIZE
  }

  function Write(d: Disk, addr: nat, data: Bytes, f: Fate): Disk {
    if Fits(addr, data) then WriteFile(d, Overlay(ReadFile(d), addr, data), f) else d
  }

  /** hal_flash_write on a backing file that exists but cannot be opened: it is taken for a missing one. */
  function WriteBlind(d: Disk, addr: nat, data: Bytes, f: Fate): Disk {
    if Fits(addr, data) then WriteFile(d, Overlay([], addr, data), f) else d
  }

  /** Such a write reads back too when it commits, but everything outside the written region is lost. */
  lemma ReadAfterBlindCommit(d: Disk, addr: nat, data: Bytes, f: Fate, at: nat, len: nat)
    requires Fits(addr, data) && Commits(f)
    ensures Read(WriteBlind(d, addr, data, f), addr, |data|) == data
    ensures at + len <= addr || addr + |data| <= at ==> Read(WriteBlind(d, addr, data, f), at, len) == Zeros(len)
  {
    var file := Overlay([], addr, data);
    assert ReadFile(WriteBlind(d, addr, data, f)) == file;
  }

  /** A committed write reads back, and every other byte reads as before. */
  lemma ReadAfterCommit(d: Disk, addr: nat, data: Bytes, f: Fate, at: nat, len: nat)
    requires Fits(addr, data) && Commits(f)
    ensures Read(Write(d, addr, data, f), addr, |data|) == data
    ensures at + len <= addr || addr + |data| <= at ==> Read(Write(d, addr, data, f), at, len) == Read(d, at, len)
  {
    var file := Overlay(ReadFile(d), addr, data);
    assert ReadFile(Write(d, addr, data, f)) == file;
  }

  /** A write that stops before the rename leaves everything readable as it was, however far it got. */
  lemma ReadAfterFailure(d: Disk, addr: nat, data: Bytes, f: Fate, at: nat, len: nat)
    requires !Replaces(f)
    ensures Read(Write(d, addr, data, f), at, len) == Read(d, at, len)
  {
    assert Write(d, addr, data, f).main == d.main;
  }

  /** The bytes up to n, zero from there on. */
  function Torn(b: Bytes, n: int): (r: Bytes)
    ensures |r| == |b|
  {
    seq(|b|, i requires 0 <= i < |b| => if i < n then b[i] else 0)
  }

  /** After a failed fclose the kept bytes read as if the write had committed, and all others, those outside
      the written region included, read as zero. */
  lemma ReadAfterCloseFailure(d: Disk, addr: nat, data: Bytes, n: nat, at: nat, len: nat)
    requires Fits(addr, data)
    ensures Read(Write(d, addr, data, CloseFails(n)), at, len) == Torn(Read(Write(d, addr, data, Succeeds), at, len), n - at)
  {
    var file := Overlay(ReadFile(d), addr, data);
    assert ReadFile(Write(d, addr, data, Succeeds)) == file;
    assert ReadFile(Write(d, addr, data, CloseFails(n))) == Prefix(file, n);
  }

  class Device {
    var disk: Disk

    constructor (disk: Disk)
      ensures this.disk == disk
    {
      this.disk := disk;
    }

    /** hal_flash_read; a file that exists but cannot be opened reads like a missing one. */
    method ReadAt(addr: nat, len: nat, opens: bool) returns (b: Bytes)
      ensures b == if opens then Read(disk, addr, len) else Zeros(len)
    {
      var buf := new bv8[len](_ => 0);
      var file := if opens then ReadFile(disk) else [];
      if |file| > addr {
        var avail := |file| - addr;
        var copy := if avail < len then avail else len;
        forall i | 0 <= i < copy {
          buf[i] := file[addr + i];
        }
      }
      b := buf[..];
    }

    /** hal_flash_write; opens says whether an existing file can be read. */
    method WriteAt(addr: nat, data: Bytes, fate: Fate, opens: bool) returns (rc: Rc)
      requires !Crashes(fate)
      modifies this
      ensures disk == if opens then Write(old(disk), addr, data, fate) else WriteBlind(old(disk), addr, data, fate)
      ensures rc == Ok <==> Fits(addr, data) && Replaces(fate)
      ensures rc == ErrInvalid <==> !Fits(addr, data)
    {
      var buf := new bv8[MAX_SIZE](_ => 0);
      var file := if opens then ReadFile(disk) else [];
      forall i | 0 <= i < |file| {
        buf[i] := file[i];
      }
      var size := |file|;
      var needed := addr + |data|;
      if needed > MAX_SIZE {
        return ErrInvalid;
      }
      if needed > size {
        size := needed;
      }
      forall i | 0 <= i < |data| {
        buf[addr + i] := data[i];
      }
      assert buf[..size] == Overlay(file, addr, data);
      rc := Replace(buf[..size], fate);
    }

    /** write_file. */
    method Replace(contents: Bytes, fate: Fate) returns (rc: Rc)
      requires !Crashes(fate)
      modifies this
      ensures disk == WriteFile(old(disk), contents, fate)
      ensures rc == if Replaces(fate) then Ok else ErrIo
    {
      if fate.OpenFails? {
        return ErrIo;
      }
      var stored := if fate.ShortWrite? then Prefix(contents, fate.written)
                    else if fate.RenameFails? || fate.CloseFails? then Prefix(contents, fate.kept)
                    else contents;
      disk := disk.(tmp := Some(stored));
      if fate.ShortWrite? || fate.RenameFails? {
        return ErrIo;
      }
      disk := Disk(disk.tmp, None);
      return Ok;
    }
  }
}
