/** The persistent store (fbs/drivers/fb_nvm.c) over the flash: what its operations do to the
    map, and what survives power loss at any point of any run. */
module Nvm {
  import opened Wrappers
  import opened NvmStore
  import opened NvmImage
  import opened NvmSalvage
  import opened Flash

  function LoadDisk(d: Disk): (es: seq<Entry>)
    ensures |es| == MAX_KEYS
  {
    Load(Read(d, 0, IMAGE_SIZE))
  }

  function Persist(d: Disk, es: seq<Entry>, f: Fate): Disk
    requires SlotsOk(es)
  {
    Write(d, 0, Image(es), f)
  }

  /** What a reload gives after a persist. */
  function Reloaded(d: Disk, es: seq<Entry>, f: Fate): seq<Entry>
    requires SlotsOk(es)
  {
    if Commits(f) then es else if f.CloseFails? then Salvage(es, f.kept) else LoadDisk(d)
  }

  lemma CommittedReads(d: Disk, es: seq<Entry>, f: Fate)
    requires SlotsOk(es) && Commits(f)
    ensures Read(Persist(d, es, f), 0, IMAGE_SIZE) == Image(es)
  {
    ReadAfterCommit(d, 0, Image(es), f, 0, 0);
  }

  lemma TornReads(d: Disk, es: seq<Entry>, n: nat)
    requires SlotsOk(es)
    ensures Read(Persist(d, es, CloseFails(n)), 0, IMAGE_SIZE) == Torn(Image(es), n)
  {
    CommittedReads(d, es, Succeeds);
    ReadAfterCloseFailure(d, 0, Image(es), n, 0, IMAGE_SIZE);
  }

  /** A reload gives the saved array if the write committed, what is left of it if fclose failed, and the
      former contents otherwise. */
  lemma PersistLoads(d: Disk, es: seq<Entry>, f: Fate)
    requires SlotsOk(es)
    ensures LoadDisk(Persist(d, es, f)) == Reloaded(d, es, f)
  {
    if Commits(f) {
      CommittedReads(d, es, f);
      LoadImage(es);
    } else if f.CloseFails? {
      TornReads(d, es, f.kept);
    } else {
      ReadAfterFailure(d, 0, Image(es), f, 0, IMAGE_SIZE);
    }
  }

  /** It makes no difference to a reload whether the persist could read the old backing file. */
  lemma BlindPersistLoads(d: Disk, es: seq<Entry>, f: Fate)
    requires SlotsOk(es)
    ensures LoadDisk(WriteBlind(d, 0, Image(es), f)) == LoadDisk(Persist(d, es, f))
  {
    if Commits(f) {
      CommittedReads(d, es, f);
      ReadAfterBlindCommit(d, 0, Image(es), f, 0, 0);
    } else if f.CloseFails? {
      TornReads(d, es, f.kept);
      BlindTornReads(d, es, f.kept);
    } else {
      assert WriteBlind(d, 0, Image(es), f).main == Persist(d, es, f).main;
      assert Read(WriteBlind(d, 0, Image(es), f), 0, IMAGE_SIZE) == Read(Persist(d, es, f), 0, IMAGE_SIZE);
    }
  }

  lemma BlindTornReads(d: Disk, es: seq<Entry>, n: nat)
    requires SlotsOk(es)
    ensures Read(WriteBlind(d, 0, Image(es), CloseFails(n)), 0, IMAGE_SIZE) == Torn(Image(es), n)
  {
    assert Overlay([], 0, Image(es)) == Image(es);
    assert ReadFile(WriteBlind(d, 0, Image(es), CloseFails(n))) == Prefix(Image(es), n);
  }

  /** A flush, which reports OK whatever happens, is durable if and only if the write committed, or fclose
      failed and lost only zeros (or there was nothing to save), or nothing was written and nothing had changed. */
  lemma FlushDurableIff(d: Disk, es: seq<Entry>, f: Fate)
    requires StoreInv(es)
    ensures LoadDisk(Persist(d, es, f)) == es <==>
            || Commits(f)
            || (f.CloseFails? && (es == Empty() || ZeroTail(es, f.kept)))
            || (!Replaces(f) && LoadDisk(d) == es)
  {
    PersistLoads(d, es, f);
    if f.CloseFails? {
      SalvageOutcome(es, f.kept);
    }
  }

  lemma NewDiskLoads()
    ensures LoadDisk(Disk(None, None)) == Empty()
  {
    assert Read(Disk(None, None), 0, IMAGE_SIZE) == Zeros(IMAGE_SIZE);
    LoadErased();
  }

  /** On a new device whose temporary file cannot be opened, a flush loses any store that is not empty. */
  lemma FlushCanLose(es: seq<Entry>)
    requires SlotsOk(es) && es != Empty()
    ensures LoadDisk(Persist(Disk(None, None), es, OpenFails)) == Empty() != es
  {
    PersistLoads(Disk(None, None), es, OpenFails);
    NewDiskLoads();
  }

  /** The atomicity the flash promises is not kept: when fclose loses all but two bytes, the device reports
      success and a reload finds neither the new store nor the old one. */
  lemma CloseFailureLosesBoth(d: Disk, es: seq<Entry>)
    requires SlotsOk(es) && es != Empty() && LoadDisk(d) != Empty()
    ensures LoadDisk(Persist(d, es, CloseFails(2))) == Empty()
    ensures LoadDisk(Persist(d, es, CloseFails(2))) != es && LoadDisk(Persist(d, es, CloseFails(2))) != LoadDisk(d)
  {
    PersistLoads(d, es, CloseFails(2));
    SalvageCases(es, 2);
  }

  // ---------------------------------------------------------------- whole runs

  datatype Op = Set(key: Bytes, val: Bytes) | Delete(key: Bytes) | Reset | Flush

  /** An operation whose write meets some fate, or power loss between operations; opens says whether the
      backing file can be opened at the reload. */
  datatype Event = Do(op: Op, fate: Fate) | PowerCycle(opens: bool)

  datatype System = System(ram: seq<Entry>, disk: Disk)

  /** The abstract store: the live map and the one that power loss falls back to. */
  datatype Spec = Spec(live: map<Bytes, Bytes>, durable: map<Bytes, Bytes>)

  predicate OpOk(op: Op) {
    match op
    case Set(key, _) => IsKey(key)
    case Delete(key) => IsKey(key)
    case _ => true
  }

  predicate EventsOk(events: seq<Event>) {
    forall i :: 0 <= i < |events| && events[i].Do? ==> OpOk(events[i].op)
  }

  /** What an operation makes of the array; None when it refuses and writes nothing.
      Deleting an absent key also writes nothing. */
  function Apply(es: seq<Entry>, factory: set<Bytes>, op: Op): (r: Option<seq<Entry>>)
    requires SlotsOk(es)
    ensures r.Some? ==> SlotsOk(r.value)
  {
    match op
    case Set(key, val) =>
      if SetRefusal(es, factory, key, val).Some? then None
      else
        assert EntryOk(es[SetSlot(es, key)]);
        Some(SetEntries(es, key, val))
    case Delete(key) => if FindSlot(es, key, 0) == |es| then None else Some(DeleteEntries(es, key))
    case Reset => Some(Empty())
    case Flush => Some(es)
  }

  ghost function ApplySpec(m: map<Bytes, Bytes>, factory: set<Bytes>, op: Op): Option<map<Bytes, Bytes>> {
    match op
    case Set(key, val) =>
      if |val| > VAL_SIZE || |key| >= KEY_SIZE || key in factory || (key !in m && |m| == MAX_KEYS)
      then None else Some(m[key := val])
    case Delete(key) => if key !in m then None else Some(m - {key})
    case Reset => Some(map[])
    case Flush => Some(m)
  }

  lemma SetApplies(es: seq<Entry>, factory: set<Bytes>, key: Bytes, val: Bytes)
    requires StoreInv(es) && IsKey(key)
    ensures ApplySpec(View(es), factory, Set(key, val)).Some? <==> Apply(es, factory, Set(key, val)).Some?
    ensures Apply(es, factory, Set(key, val)).Some? ==>
              StoreInv(Apply(es, factory, Set(key, val)).value)
              && ApplySpec(View(es), factory, Set(key, val)) == Some(View(Apply(es, factory, Set(key, val)).value))
  {
    FullIff(es, key);
    if SetRefusal(es, factory, key, val).None? {
      assert EntryOk(es[SetSlot(es, key)]);
      SetView(es, key, val);
    }
  }

  lemma DeleteApplies(es: seq<Entry>, factory: set<Bytes>, key: Bytes)
    requires StoreInv(es) && IsKey(key)
    ensures ApplySpec(View(es), factory, Delete(key)).Some? <==> Apply(es, factory, Delete(key)).Some?
    ensures Apply(es, factory, Delete(key)).Some? ==>
              StoreInv(Apply(es, factory, Delete(key)).value)
              && ApplySpec(View(es), factory, Delete(key)) == Some(View(Apply(es, factory, Delete(key)).value))
  {
    FindSlotView(es, key);
    DeleteView(es, key);
  }

  /** The array operation is the map operation, refusals included. */
  lemma ApplyView(es: seq<Entry>, factory: set<Bytes>, op: Op)
    requires StoreInv(es) && OpOk(op)
    ensures ApplySpec(View(es), factory, op).Some? <==> Apply(es, factory, op).Some?
    ensures Apply(es, factory, op).Some? ==>
              StoreInv(Apply(es, factory, op).value) && ApplySpec(View(es), factory, op) == Some(View(Apply(es, factory, op).value))
  {
    match op
    case Set(key, val) => SetApplies(es, factory, key, val);
    case Delete(key) => DeleteApplies(es, factory, key);
    case Reset => EmptyStore();
    case Flush =>
  }

  function Step(s: System, factory: set<Bytes>, e: Event): System
    requires SlotsOk(s.ram)
  {
    match e
    case PowerCycle(opens) => System(if opens then LoadDisk(s.disk) else Load(Zeros(IMAGE_SIZE)), s.disk)
    case Do(op, fate) =>
      match Apply(s.ram, factory, op)
      case None => s
      case Some(es) =>
        var d := Persist(s.disk, es, fate);
        System(if Crashes(fate) then LoadDisk(d) else es, d)
  }

  /** The map of the array after its save lost all but n bytes. */
  ghost function Remains(es: seq<Entry>, n: nat): (m: map<Bytes, Bytes>)
    requires StoreInv(es)
    ensures StoreInv(Salvage(es, n)) && m == View(Salvage(es, n))
  {
    SalvageThinned(es, n);
    View(Salvage(es, n))
  }

  /** The same for a failed fclose in this step. */
  ghost function Left(s: System, factory: set<Bytes>, e: Event): map<Bytes, Bytes>
    requires StoreInv(s.ram)
  {
    if e.Do? && e.fate.CloseFails? && Apply(s.ram, factory, e.op).Some? && StoreInv(Apply(s.ram, factory, e.op).value)
    then Remains(Apply(s.ram, factory, e.op).value, e.fate.kept)
    else map[]
  }

  /** left is what a failed fclose leaves of the map it was to save. */
  ghost function StepSpec(a: Spec, factory: set<Bytes>, e: Event, left: map<Bytes, Bytes>): Spec {
    match e
    case PowerCycle(opens) => Spec(if opens then a.durable else map[], a.durable)
    case Do(op, fate) =>
      match ApplySpec(a.live, factory, op)
      case None => a
      case Some(m) =>
        var durable := if Commits(fate) then m else if fate.CloseFails? then left else a.durable;
        Spec(if Crashes(fate) then durable else m, durable)
  }

  ghost predicate Refines(s: System, a: Spec) {
    && StoreInv(s.ram) && View(s.ram) == a.live
    && StoreInv(LoadDisk(s.disk)) && View(LoadDisk(s.disk)) == a.durable
  }

  lemma ReloadedOk(s: System, a: Spec, es: seq<Entry>, fate: Fate)
    requires Refines(s, a) && StoreInv(es)
    ensures StoreInv(Reloaded(s.disk, es, fate))
  {
    if fate.CloseFails? {
      SalvageOutcome(es, fate.kept);
    }
  }

  lemma StoreRefines(s: System, a: Spec, es: seq<Entry>, fate: Fate)
    requires Refines(s, a) && StoreInv(es)
    ensures var d := Persist(s.disk, es, fate);
            var r := Reloaded(s.disk, es, fate);
            && StoreInv(r)
            && Refines(System(if Crashes(fate) then LoadDisk(d) else es, d), Spec(if Crashes(fate) then View(r) else View(es), View(r)))
  {
    PersistLoads(s.disk, es, fate);
    ReloadedOk(s, a, es, fate);
    LoadedRefines(es, Persist(s.disk, es, fate), Reloaded(s.disk, es, fate), Crashes(fate));
  }

  lemma LoadedRefines(es: seq<Entry>, d: Disk, r: seq<Entry>, crashed: bool)
    requires StoreInv(es) && StoreInv(r) && LoadDisk(d) == r
    ensures Refines(System(if crashed then LoadDisk(d) else es, d), Spec(if crashed then View(r) else View(es), View(r)))
  {}

  lemma LeftIs(s: System, factory: set<Bytes>, op: Op, fate: Fate, es: seq<Entry>)
    requires StoreInv(s.ram) && Apply(s.ram, factory, op) == Some(es) && StoreInv(es)
    requires fate.CloseFails?
    ensures StoreInv(Salvage(es, fate.kept)) && Left(s, factory, Do(op, fate)) == View(Salvage(es, fate.kept))
  {
    assert Left(s, factory, Do(op, fate)) == Remains(es, fate.kept);
  }

  lemma DoSpecified(s: System, a: Spec, factory: set<Bytes>, op: Op, fate: Fate, es: seq<Entry>)
    requires Refines(s, a) && Apply(s.ram, factory, op) == Some(es) && StoreInv(es)
    requires ApplySpec(a.live, factory, op) == Some(View(es)) && StoreInv(Reloaded(s.disk, es, fate))
    ensures var durable := View(Reloaded(s.disk, es, fate));
            StepSpec(a, factory, Do(op, fate), Left(s, factory, Do(op, fate)))
            == Spec(if Crashes(fate) then durable else View(es), durable)
  {
    if fate.CloseFails? {
      LeftIs(s, factory, op, fate, es);
    }
  }

  lemma DoRefines(s: System, a: Spec, factory: set<Bytes>, op: Op, fate: Fate, es: seq<Entry>)
    requires Refines(s, a) && Apply(s.ram, factory, op) == Some(es) && StoreInv(es)
    requires ApplySpec(a.live, factory, op) == Some(View(es))
    ensures Refines(Step(s, factory, Do(op, fate)), StepSpec(a, factory, Do(op, fate), Left(s, factory, Do(op, fate))))
  {
    StoreRefines(s, a, es, fate);
    DoSpecified(s, a, factory, op, fate, es);
  }

  lemma StepRefines(s: System, a: Spec, factory: set<Bytes>, e: Event)
    requires Refines(s, a) && (e.Do? ==> OpOk(e.op))
    ensures Refines(Step(s, factory, e), StepSpec(a, factory, e, Left(s, factory, e)))
  {
    match e
    case PowerCycle(_) =>
      LoadErased();
      EmptyStore();
    case Do(op, fate) =>
      ApplyView(s.ram, factory, op);
      match Apply(s.ram, factory, op)
      case None =>
      case Some(es) => DoRefines(s, a, factory, op, fate, es);
  }

  /** s runs to t through these events. */
  ghost predicate Runs(s: System, factory: set<Bytes>, events: seq<Event>, t: System)
    decreases |events|
  {
    if events == [] then s == t
    else
      && SlotsOk(s.ram)
      && Runs(Step(s, factory, events[0]), factory, events[1..], t)
  }

  /** The specified maps along a run of s. */
  ghost function RunSpec(a: Spec, s: System, factory: set<Bytes>, events: seq<Event>): Spec
    requires Refines(s, a) && EventsOk(events)
    decreases |events|
  {
    if events == [] then a
    else
      StepRefines(s, a, factory, events[0]);
      assert EventsOk(events[1..]);
      RunSpec(StepSpec(a, factory, events[0], Left(s, factory, events[0])), Step(s, factory, events[0]), factory, events[1..])
  }

  function PowerOn(d: Disk): System {
    System(LoadDisk(d), d)
  }

  lemma {:induction false} RunRefines(s: System, a: Spec, factory: set<Bytes>, events: seq<Event>, t: System)
    requires Refines(s, a) && EventsOk(events) && Runs(s, factory, events, t)
    ensures Refines(t, RunSpec(a, s, factory, events))
    decreases |events|
  {
    if events != [] {
      StepRefines(s, a, factory, events[0]);
      assert EventsOk(events[1..]);
      RunRefines(Step(s, factory, events[0]), StepSpec(a, factory, events[0], Left(s, factory, events[0])), factory, events[1..], t);
    }
  }

  /** Every event is possible in every state a run reaches. */
  lemma {:induction false} RunExists(s: System, a: Spec, factory: set<Bytes>, events: seq<Event>) returns (t: System)
    requires Refines(s, a) && EventsOk(events)
    ensures Runs(s, factory, events, t)
    decreases |events|
  {
    if events == [] {
      t := s;
    } else {
      StepRefines(s, a, factory, events[0]);
      assert EventsOk(events[1..]);
      t := RunExists(Step(s, factory, events[0]), StepSpec(a, factory, events[0], Left(s, factory, events[0])), factory, events[1..]);
    }
  }

  /** The maps of a device that is switched on. */
  ghost function PowerOnSpec(d: Disk): Spec
    requires StoreInv(LoadDisk(d))
  {
    Spec(View(LoadDisk(d)), View(LoadDisk(d)))
  }

  /** From any device that holds a store, after any run with failures and power loss anywhere, the live array
      is the specified map, and a reload gives the map of the last write that replaced the file: all of it
      if that write committed, what was left of it if fclose failed. */
  lemma CrashConsistent(d: Disk, factory: set<Bytes>, events: seq<Event>, t: System)
    requires StoreInv(LoadDisk(d)) && EventsOk(events) && Runs(PowerOn(d), factory, events, t)
    ensures Refines(t, RunSpec(PowerOnSpec(d), PowerOn(d), factory, events))
    ensures StoreInv(PowerOn(t.disk).ram)
    ensures View(PowerOn(t.disk).ram) == RunSpec(PowerOnSpec(d), PowerOn(d), factory, events).durable
  {
    RunRefines(PowerOn(d), PowerOnSpec(d), factory, events, t);
  }

  /** A device without a store file starts with the empty store. */
  lemma NewDeviceStarts()
    ensures StoreInv(LoadDisk(Disk(None, None))) && PowerOnSpec(Disk(None, None)) == Spec(map[], map[])
  {
    NewDiskLoads();
    EmptyStore();
  }

  ghost predicate SubMap(a: map<Bytes, Bytes>, b: map<Bytes, Bytes>) {
    forall key :: key in a ==> key in b && a[key] == b[key]
  }

  /** durable is what event k of the run saved, or a part of it if fclose failed there. */
  ghost predicate SavedAt(a: Spec, s: System, factory: set<Bytes>, events: seq<Event>, k: nat, durable: map<Bytes, Bytes>)
    requires Refines(s, a) && EventsOk(events) && k < |events|
  {
    assert EventsOk(events[..k]);
    var live := RunSpec(a, s, factory, events[..k]).live;
    && events[k].Do? && Replaces(events[k].fate)
    && ApplySpec(live, factory, events[k].op).Some?
    && var saved := ApplySpec(live, factory, events[k].op).value;
       if Commits(events[k].fate) then durable == saved else SubMap(durable, saved)
  }

  lemma LeftIsPart(s: System, a: Spec, factory: set<Bytes>, e: Event)
    requires Refines(s, a) && e.Do? && OpOk(e.op) && e.fate.CloseFails? && ApplySpec(a.live, factory, e.op).Some?
    ensures SubMap(Left(s, factory, e), ApplySpec(a.live, factory, e.op).value)
  {
    ApplyView(s.ram, factory, e.op);
    SalvageOutcome(Apply(s.ram, factory, e.op).value, e.fate.kept);
  }

  /** The durable map is one the live map has been, a part of one that fclose failed to save, or the initial one:
      no key ever comes back with a value it was not given. */
  lemma {:induction false} DurableWasLive(a: Spec, s: System, factory: set<Bytes>, events: seq<Event>)
    requires Refines(s, a) && EventsOk(events)
    ensures var end := RunSpec(a, s, factory, events);
            end.durable == a.durable || exists k :: 0 <= k < |events| && SavedAt(a, s, factory, events, k, end.durable)
    decreases |events|
  {
    if events != [] {
      var e, rest := events[0], events[1..];
      StepRefines(s, a, factory, e);
      assert EventsOk(rest);
      var b, u := StepSpec(a, factory, e, Left(s, factory, e)), Step(s, factory, e);
      var end := RunSpec(a, s, factory, events);
      DurableWasLive(b, u, factory, rest);
      if end.durable != b.durable {
        var k :| 0 <= k < |rest| && SavedAt(b, u, factory, rest, k, end.durable);
        SavedLater(a, s, factory, events, k, end.durable);
      } else if b.durable != a.durable {
        SavedFirst(a, s, factory, events);
      }
    }
  }

  lemma SavedLater(a: Spec, s: System, factory: set<Bytes>, events: seq<Event>, k: nat, durable: map<Bytes, Bytes>)
    requires Refines(s, a) && EventsOk(events) && events != [] && EventsOk(events[1..]) && k < |events| - 1
    requires var e := events[0];
             && Refines(Step(s, factory, e), StepSpec(a, factory, e, Left(s, factory, e)))
             && SavedAt(StepSpec(a, factory, e, Left(s, factory, e)), Step(s, factory, e), factory, events[1..], k, durable)
    ensures SavedAt(a, s, factory, events, k + 1, durable)
  {
    assert events[..k + 1][1..] == events[1..][..k];
    assert events[..k + 1][0] == events[0];
  }

  lemma SavedFirst(a: Spec, s: System, factory: set<Bytes>, events: seq<Event>)
    requires Refines(s, a) && EventsOk(events) && events != []
    requires StepSpec(a, factory, events[0], Left(s, factory, events[0])).durable != a.durable
    ensures SavedAt(a, s, factory, events, 0, StepSpec(a, factory, events[0], Left(s, factory, events[0])).durable)
  {
    assert events[..0] == [];
    assert events[0].Do?;
    if events[0].fate.CloseFails? {
      LeftIsPart(s, a, factory, events[0]);
    }
  }

  // ---------------------------------------------------------------- the code

  /** The driver block: the live array and the device under it. */
  class Store {
    const slots: array<Entry>
    const device: Device
    const factory: set<Bytes>

    ghost predicate Valid()
      reads this, slots
    {
      slots.Length == MAX_KEYS && SlotsOk(slots[..])
    }

    /** nvm_init: the array is loaded from the device. */
    constructor (device: Device, factory: set<Bytes>, opens: bool)
      requires SlotsOk(LoadDisk(device.disk))
      ensures Valid() && fresh(slots) && this.device == device && this.factory == factory
      ensures slots[..] == if opens then LoadDisk(device.disk) else Empty()
    {
      this.device := device;
      this.factory := factory;
      slots := new Entry[MAX_KEYS](_ => Blank());
      new;
      LoadSlots(opens);
      EmptyStore();
    }

    /** nvm_load; opens says whether the backing file can be opened. */
    method LoadSlots(opens: bool)
      requires slots.Length == MAX_KEYS
      modifies slots
      ensures slots[..] == if opens then LoadDisk(device.disk) else Empty()
    {
      LoadErased();
      var img := device.ReadAt(0, IMAGE_SIZE, opens);
      var es := Load(img);
      forall i | 0 <= i < MAX_KEYS {
        slots[i] := es[i];
      }
    }

    /** nvm_persist; the result of the write is ignored. */
    method PersistSlots(fate: Fate)
      requires Valid() && !Crashes(fate)
      modifies device
      ensures device.disk == Persist(old(device.disk), slots[..], fate)
    {
      var rc := device.WriteAt(0, Image(slots[..]), fate, true);
    }

    method Find(key: Bytes) returns (slot: nat)
      requires Valid()
      ensures slot == FindSlot(slots[..], key, 0)
    {
      slot := 0;
      while slot < MAX_KEYS && !Hit(slots[slot], key)
        invariant slot <= MAX_KEYS
        invariant FindSlot(slots[..], key, 0) == FindSlot(slots[..], key, slot)
      {
        slot := slot + 1;
      }
    }

    method Free() returns (slot: nat)
      requires Valid()
      ensures slot == FindFree(slots[..], 0)
    {
      slot := 0;
      while slot < MAX_KEYS && slots[slot].active
        invariant slot <= MAX_KEYS
        invariant FindFree(slots[..], 0) == FindFree(slots[..], slot)
      {
        slot := slot + 1;
      }
    }

    /** What a finished operation leaves behind. */
    twostate predicate Did(op: Op, fate: Fate)
      requires old(Valid())
      reads this, slots, device
    {
      match Apply(old(slots[..]), factory, op)
      case None => slots[..] == old(slots[..]) && device.disk == old(device.disk)
      case Some(es) => slots[..] == es && device.disk == Persist(old(device.disk), es, fate)
    }

    method SetKey(key: Bytes, val: Bytes, fate: Fate) returns (refused: Option<Refusal>)
      requires Valid() && !Crashes(fate)
      modifies slots, device
      ensures Valid()
      ensures refused == SetRefusal(old(slots[..]), factory, key, val)
      ensures Did(Set(key, val), fate)
    {
      if |val| > VAL_SIZE {
        return Some(ValueTooLong);
      }
      if |key| >= KEY_SIZE {
        return Some(KeyTooLong);
      }
      if key in factory {
        return Some(FactoryKey);
      }
      var slot := PlaceFor(key);
      if slot == MAX_KEYS {
        return Some(StoreFull);
      }
      StoreAt(slot, key, val);
      PersistSlots(fate);
      return None;
    }

    /** The key's own slot, or else a free one. */
    method PlaceFor(key: Bytes) returns (slot: nat)
      requires Valid()
      ensures slot == SetSlot(slots[..], key)
    {
      slot := Find(key);
      if slot == MAX_KEYS {
        slot := Free();
      }
    }

    /** The value is copied into the slot, with the key if the slot was free. */
    method StoreAt(slot: nat, key: Bytes, val: Bytes)
      requires Valid() && slot < MAX_KEYS && slot == SetSlot(slots[..], key) && |key| < KEY_SIZE && |val| <= VAL_SIZE
      modifies slots
      ensures |old(slots[..])[slot].val| == VAL_SIZE && slots[..] == SetEntries(old(slots[..]), key, val)
    {
      ghost var es := slots[..];
      assert EntryOk(es[slot]);
      slots[slot] := Stored(slots[slot], key, val);
      assert slots[..] == es[slot := Stored(es[slot], key, val)];
    }

    /** The value, unless the key is absent or the caller's buffer too small. */
    method Get(key: Bytes, capacity: nat) returns (val: Option<Bytes>)
      requires Valid()
      ensures StoreInv(slots[..]) && IsKey(key) ==>
                val == if key in View(slots[..]) && |View(slots[..])[key]| <= capacity then Some(View(slots[..])[key]) else None
    {
      var slot := Find(key);
      ghost var es := slots[..];
      if StoreInv(es) && IsKey(key) {
        FindSlotView(es, key);
      }
      if slot == MAX_KEYS {
        return None;
      }
      assert EntryOk(es[slot]);
      if StoreInv(es) && IsKey(key) {
        ViewAt(es, slot, key);
      }
      if slots[slot].valLen > capacity {
        return None;
      }
      return Some(slots[slot].val[..slots[slot].valLen]);
    }

    method DeleteKey(key: Bytes, fate: Fate)
      requires Valid() && !Crashes(fate)
      modifies slots, device
      ensures Valid()
      ensures Did(Delete(key), fate)
    {
      var slot := Find(key);
      if slot == MAX_KEYS {
        return;
      }
      BlankOk();
      slots[slot] := Blank();
      assert slots[..] == DeleteEntries(old(slots[..]), key);
      PersistSlots(fate);
    }

    /** Reports success whatever became of the write. */
    method FlushAll(fate: Fate) returns (ok: bool)
      requires Valid() && !Crashes(fate)
      modifies device
      ensures Valid()
      ensures ok && Did(Flush, fate)
    {
      PersistSlots(fate);
      ok := true;
    }

    method ResetAll(fate: Fate)
      requires Valid() && !Crashes(fate)
      modifies slots, device
      ensures Valid()
      ensures Did(Reset, fate)
    {
      BlankOk();
      BlankAll();
      PersistSlots(fate);
    }

    method BlankAll()
      requires slots.Length == MAX_KEYS
      modifies slots
      ensures slots[..] == Empty()
    {
      forall i | 0 <= i < MAX_KEYS {
        slots[i] := Blank();
      }
    }
  }
}
