/** Deadline supervision of function blocks (fbs/drivers/fb_watchdog.c).  Each public call, and each
    monitor scan together with its clock reading, holds the module's mutex and is one step here. */
module Watchdog {
  import opened Words

  const SLOTS: nat := 64
  const MAX_TIMEOUT_MS: nat := 4294967

  /** A handle of a function block; 0 is NULL. */
  type Handle = nat

  datatype Slot = Slot(handle: Handle, timeoutMs: U32, lastUs: U32, active: bool)

  /** A supervised block; since is the true time of its last sign of life, which never wraps. */
  datatype Watch = Watch(handle: Handle, timeoutMs: U32, since: nat)

  // ---------------------------------------------------------------- deadlines under wrap

  /** The scan's comparison, in unsigned 32-bit arithmetic. */
  predicate Overdue(lastUs: U32, timeoutMs: U32, clock: U32) {
    (clock - lastUs) % WORD > (timeoutMs * 1000) % WORD
  }

  /** More true time has passed than the timeout allows. */
  predicate Late(w: Watch, now: nat) {
    now - w.since > w.timeoutMs * 1000
  }

  lemma Elapsed(since: nat, now: nat)
    requires since <= now
    ensures (now % WORD - since % WORD) % WORD == (now - since) % WORD
  {
    var q := now / WORD - since / WORD;
    assert now - since == (now % WORD - since % WORD) + q * WORD;
    ModShift(now % WORD - since % WORD, q);
  }

  lemma ModShift(x: int, q: int)
    ensures (x + q * WORD) % WORD == x % WORD
  {}

  /** Through any number of clock wraps, the scan decides every elapsed time below 2^32 us correctly
      exactly when the timeout in microseconds fits 32 bits. */
  lemma OverdueExactIff(timeoutMs: U32)
    ensures (forall since: nat, now: nat ::
               since <= now < since + WORD ==>
                 (Overdue(since % WORD, timeoutMs, now % WORD) <==> now - since > timeoutMs * 1000))
            <==> timeoutMs <= MAX_TIMEOUT_MS
  {
    if timeoutMs <= MAX_TIMEOUT_MS {
      forall since: nat, now: nat | since <= now < since + WORD
        ensures Overdue(since % WORD, timeoutMs, now % WORD) <==> now - since > timeoutMs * 1000
      {
        Elapsed(since, now);
      }
    } else {
      TooLong(timeoutMs);
    }
  }

  /** A longer timeout is cut to 32 bits, and a block that has just been silent for less is reported. */
  lemma TooLong(timeoutMs: U32)
    requires timeoutMs > MAX_TIMEOUT_MS
    ensures var since, now := 0, WORD - 1;
            Overdue(since % WORD, timeoutMs, now % WORD) && !(now - since > timeoutMs * 1000)
  {
    var us := timeoutMs * 1000;
    assert us == 8 * (timeoutMs * 125) && WORD == 8 * 0x2000_0000;
    EvenRest(timeoutMs * 125);
  }

  lemma EvenRest(k: nat)
    ensures (8 * k) % (8 * 0x2000_0000) <= 8 * 0x2000_0000 - 8
  {}

  /** A silence of 2^32 us or more passes again for as long as the timeout, once per wrap. */
  lemma AgreesIff(w: Watch, now: nat)
    requires w.since <= now && w.timeoutMs <= MAX_TIMEOUT_MS
    ensures (Overdue(w.since % WORD, w.timeoutMs, now % WORD) <==> Late(w, now)) <==>
            (now - w.since < WORD || (now - w.since) % WORD > w.timeoutMs * 1000)
  {
    Elapsed(w.since, now);
  }

  // ---------------------------------------------------------------- the list of supervised blocks

  /** The position of a handle, or the length. */
  function IndexOf(list: seq<Watch>, fb: Handle): (i: nat)
    ensures i <= |list| && (i < |list| ==> list[i].handle == fb)
    ensures forall j :: 0 <= j < i ==> list[j].handle != fb
  {
    if list == [] || list[0].handle == fb then 0 else 1 + IndexOf(list[1..], fb)
  }

  function Enlist(list: seq<Watch>, fb: Handle, timeoutMs: U32, now: nat): seq<Watch> {
    var i := IndexOf(list, fb);
    if fb == 0 || timeoutMs == 0 then list
    else if i < |list| then list[i := Watch(fb, timeoutMs, now)]
    else if |list| < SLOTS then list + [Watch(fb, timeoutMs, now)]
    else list
  }

  function Refresh(list: seq<Watch>, fb: Handle, now: nat): seq<Watch> {
    var i := IndexOf(list, fb);
    if fb != 0 && i < |list| then list[i := list[i].(since := now)] else list
  }

  function Remove(list: seq<Watch>, fb: Handle): seq<Watch> {
    var i := IndexOf(list, fb);
    if fb != 0 && i < |list| then list[..i] + list[i + 1..] else list
  }

  /** The handles a scan at this clock value reports, in slot order. */
  function Missed(list: seq<Watch>, clock: U32): seq<Handle> {
    if list == [] then []
    else
      var w := list[|list| - 1];
      Missed(list[..|list| - 1], clock) + (if Overdue(w.since % WORD, w.timeoutMs, clock) then [w.handle] else [])
  }

  // ---------------------------------------------------------------- what a scan does

  const FAULT_EVENT: nat := 0x60
  const CHECKIN_EVENT: nat := 0x50
  const MISSED_CHECKIN: nat := 0x047E
  const NOBODY: nat := 0xFF
  const REASON: nat := 1

  datatype Action =
    | Emit(eventType: nat, source: nat, target: nat, state: nat, msgId: nat)
    | ReportFault(reason: nat)         // on the watchdog's own block
    | Publish(msgId: nat, block: nat)  // with priority HIGH, from the watchdog's own block
    | Kick

  /** For one missed block; self is the endpoint of the watchdog's own block, 0xFF for none. */
  function Alarm(ep: nat, timeoutMs: U32, self: nat): seq<Action> {
    [Emit(FAULT_EVENT, ep, NOBODY, 0, MISSED_CHECKIN)]
    + (if self == NOBODY then [] else [ReportFault(REASON), Publish(MISSED_CHECKIN, ep)])
    + [Emit(FAULT_EVENT, ep, NOBODY, timeoutMs % 0x100, MISSED_CHECKIN)]
  }

  function Alarms(list: seq<Watch>, clock: U32, epOf: Handle -> nat, self: nat): seq<Action> {
    if list == [] then []
    else
      var w := list[|list| - 1];
      Alarms(list[..|list| - 1], clock, epOf, self)
      + (if Overdue(w.since % WORD, w.timeoutMs, clock) then Alarm(epOf(w.handle), w.timeoutMs, self) else [])
  }

  function Published(actions: seq<Action>): seq<nat> {
    if actions == [] then []
    else Published(actions[..|actions| - 1])
         + (if actions[|actions| - 1].Publish? then [actions[|actions| - 1].block] else [])
  }

  lemma {:induction false} PublishedBoth(a: seq<Action>, b: seq<Action>)
    ensures Published(a + b) == Published(a) + Published(b)
  {
    if b == [] {
      assert a + b == a;
    } else {
      PublishedBoth(a, b[..|b| - 1]);
      assert (a + b)[..|a + b| - 1] == a + b[..|b| - 1];
    }
  }

  /** With a block of its own the watchdog publishes one message for each missed block, in slot order. */
  lemma {:induction false} AlarmsPublish(list: seq<Watch>, clock: U32, epOf: Handle -> nat, self: nat)
    ensures var missed := Missed(list, clock);
            Published(Alarms(list, clock, epOf, self)) ==
              if self == NOBODY then [] else seq(|missed|, i requires 0 <= i < |missed| => epOf(missed[i]))
  {
    if list != [] {
      var before, w := list[..|list| - 1], list[|list| - 1];
      AlarmsPublish(before, clock, epOf, self);
      var alarm := Alarm(epOf(w.handle), w.timeoutMs, self);
      PublishedBoth(Alarms(before, clock, epOf, self), if Overdue(w.since % WORD, w.timeoutMs, clock) then alarm else []);
      OneAlarm(epOf(w.handle), w.timeoutMs, self);
    }
  }

  lemma OneAlarm(ep: nat, timeoutMs: U32, self: nat)
    ensures Published(Alarm(ep, timeoutMs, self)) == if self == NOBODY then [] else [ep]
  {
    var first, last := Emit(FAULT_EVENT, ep, NOBODY, 0, MISSED_CHECKIN), Emit(FAULT_EVENT, ep, NOBODY, timeoutMs % 0x100, MISSED_CHECKIN);
    var report, tell := ReportFault(REASON), Publish(MISSED_CHECKIN, ep);
    var middle := if self == NOBODY then [] else [report] + [tell];
    assert Alarm(ep, timeoutMs, self) == [first] + middle + [last];
    PublishedBoth([first] + middle, [last]);
    PublishedBoth([first], middle);
    PublishedBoth([report], [tell]);
    PublishedOne(first);
    PublishedOne(last);
    PublishedOne(report);
    PublishedOne(tell);
  }

  lemma PublishedOne(a: Action)
    ensures Published([a]) == if a.Publish? then [a.block] else []
  {
    assert [a][..0] == [];
  }

  /** The number of events among these actions, or of reported faults. */
  function Number(actions: seq<Action>, reports: bool): nat {
    if actions == [] then 0
    else
      var last := actions[|actions| - 1];
      Number(actions[..|actions| - 1], reports) + (if (if reports then last.ReportFault? else last.Emit?) then 1 else 0)
  }

  lemma {:induction false} NumberBoth(a: seq<Action>, b: seq<Action>, reports: bool)
    ensures Number(a + b, reports) == Number(a, reports) + Number(b, reports)
  {
    if b == [] {
      assert a + b == a;
    } else {
      NumberBoth(a, b[..|b| - 1], reports);
      assert (a + b)[..|a + b| - 1] == a + b[..|b| - 1];
    }
  }

  lemma NumberOne(a: Action, reports: bool)
    ensures Number([a], reports) == if (if reports then a.ReportFault? else a.Emit?) then 1 else 0
  {
    assert [a][..0] == [];
  }

  lemma OneAlarmNumber(ep: nat, timeoutMs: U32, self: nat, reports: bool)
    ensures Number(Alarm(ep, timeoutMs, self), reports) == if !reports then 2 else if self == NOBODY then 0 else 1
  {
    var first, last := Emit(FAULT_EVENT, ep, NOBODY, 0, MISSED_CHECKIN), Emit(FAULT_EVENT, ep, NOBODY, timeoutMs % 0x100, MISSED_CHECKIN);
    var report, tell := ReportFault(REASON), Publish(MISSED_CHECKIN, ep);
    var middle := if self == NOBODY then [] else [report] + [tell];
    assert Alarm(ep, timeoutMs, self) == [first] + middle + [last];
    NumberBoth([first] + middle, [last], reports);
    NumberBoth([first], middle, reports);
    NumberBoth([report], [tell], reports);
    NumberOne(first, reports);
    NumberOne(last, reports);
    NumberOne(report, reports);
    NumberOne(tell, reports);
  }

  lemma OneAlarmHolds(ep: nat, timeoutMs: U32, self: nat)
    ensures var alarm := Alarm(ep, timeoutMs, self);
            Kick !in alarm && Emit(0x60, ep, 0xFF, 0, 0x047E) in alarm && Emit(0x60, ep, 0xFF, timeoutMs % 256, 0x047E) in alarm
  {
    var alarm := Alarm(ep, timeoutMs, self);
    assert alarm[0] == Emit(0x60, ep, 0xFF, 0, 0x047E);
    assert alarm[|alarm| - 1] == Emit(0x60, ep, 0xFF, timeoutMs % 256, 0x047E);
  }

  /** A scan emits two fault events for each missed block and, with a block of its own, reports one fault for each. */
  lemma {:induction false} AlarmsNumber(list: seq<Watch>, clock: U32, epOf: Handle -> nat, self: nat, reports: bool)
    ensures var missed, alarms := Missed(list, clock), Alarms(list, clock, epOf, self);
            Number(alarms, reports) == if !reports then 2 * |missed| else if self == NOBODY then 0 else |missed|
  {
    if list != [] {
      var before, w := list[..|list| - 1], list[|list| - 1];
      AlarmsNumber(before, clock, epOf, self, reports);
      if Overdue(w.since % WORD, w.timeoutMs, clock) {
        OneAlarmNumber(epOf(w.handle), w.timeoutMs, self, reports);
        NumberBoth(Alarms(before, clock, epOf, self), Alarm(epOf(w.handle), w.timeoutMs, self), reports);
      } else {
        assert Alarms(before, clock, epOf, self) + [] == Alarms(before, clock, epOf, self);
      }
    }
  }

  /** Among them is the fault event of each missed block, and no kick. */
  lemma {:induction false} AlarmsTell(list: seq<Watch>, clock: U32, epOf: Handle -> nat, self: nat)
    ensures var missed, alarms := Missed(list, clock), Alarms(list, clock, epOf, self);
            Kick !in alarms && forall h :: h in missed ==> Emit(0x60, epOf(h), 0xFF, 0, 0x047E) in alarms
  {
    if list != [] {
      var before, w := list[..|list| - 1], list[|list| - 1];
      AlarmsTell(before, clock, epOf, self);
      if Overdue(w.since % WORD, w.timeoutMs, clock) {
        OneAlarmHolds(epOf(w.handle), w.timeoutMs, self);
      }
    }
  }

  lemma {:induction false} NoAlarm(list: seq<Watch>, clock: U32, epOf: Handle -> nat, self: nat)
    ensures Missed(list, clock) == [] ==> Alarms(list, clock, epOf, self) == []
  {
    if list != [] {
      NoAlarm(list[..|list| - 1], clock, epOf, self);
    }
  }

  /** A scan kicks if and only if no block was missed. */
  lemma KickIff(list: seq<Watch>, clock: U32, epOf: Handle -> nat, self: nat, heartbeat: seq<Action>)
    requires Kick in heartbeat
    ensures Kick in Alarms(list, clock, epOf, self) + (if Missed(list, clock) == [] then heartbeat else []) <==>
            Missed(list, clock) == []
  {
    AlarmsTell(list, clock, epOf, self);
  }

  function LateOnes(list: seq<Watch>, now: nat): seq<Handle> {
    if list == [] then []
    else
      var w := list[|list| - 1];
      LateOnes(list[..|list| - 1], now) + (if Late(w, now) then [w.handle] else [])
  }

  /** Blocks are distinct, real, and not seen in the future. */
  ghost predicate ListInv(list: seq<Watch>, now: nat) {
    && |list| <= SLOTS
    && (forall i :: 0 <= i < |list| ==> list[i].handle != 0 && list[i].timeoutMs != 0 && list[i].since <= now)
    && (forall i, j :: 0 <= i < j < |list| ==> list[i].handle != list[j].handle)
  }

  // ---------------------------------------------------------------- runs

  datatype Call = DoRegister(fb: Handle, timeoutMs: U32) | DoCheckin(fb: Handle) | DoUnregister(fb: Handle)

  datatype Timed = Timed(call: Call, at: nat)

  function Step(list: seq<Watch>, t: Timed): seq<Watch> {
    match t.call
    case DoRegister(fb, ms) => Enlist(list, fb, ms, t.at)
    case DoCheckin(fb) => Refresh(list, fb, t.at)
    case DoUnregister(fb) => Remove(list, fb)
  }

  function Run(calls: seq<Timed>): seq<Watch> {
    if calls == [] then [] else Step(Run(calls[..|calls| - 1]), calls[|calls| - 1])
  }

  ghost predicate InOrder(calls: seq<Timed>, now: nat) {
    && (forall i, j :: 0 <= i < j < |calls| ==> calls[i].at <= calls[j].at)
    && (forall i :: 0 <= i < |calls| ==> calls[i].at <= now)
  }

  /** The time of the last call that counts as a sign of life of a block. */
  function LastSeen(calls: seq<Timed>, fb: Handle): nat {
    if calls == [] then 0
    else
      var last := calls[|calls| - 1];
      if last.call.fb == fb && (last.call.DoCheckin? || (last.call.DoRegister? && last.call.timeoutMs != 0)) then last.at
      else LastSeen(calls[..|calls| - 1], fb)
  }

  /** The timeout of a block's last registration. */
  function LastTimeout(calls: seq<Timed>, fb: Handle): nat {
    if calls == [] then 0
    else
      var last := calls[|calls| - 1];
      if last.call.fb == fb && last.call.DoRegister? && last.call.timeoutMs != 0 then last.call.timeoutMs
      else LastTimeout(calls[..|calls| - 1], fb)
  }

  /** The blocks under supervision after these calls: a registration with a timeout is accepted for a block that is
      supervised already, or while fewer than 64 are; it holds until the block is unregistered. */
  function Supervised(calls: seq<Timed>): set<Handle> {
    if calls == [] then {}
    else
      var before, call := Supervised(calls[..|calls| - 1]), calls[|calls| - 1].call;
      match call
      case DoRegister(fb, _) => if Accepts(before, call) then before + {fb} else before
      case DoCheckin(_) => before
      case DoUnregister(fb) => before - {fb}
  }

  predicate Accepts(supervised: set<Handle>, call: Call) {
    && call.DoRegister? && call.fb != 0 && call.timeoutMs != 0
    && (call.fb in supervised || |supervised| < 64)
  }

  /** The k-th call is an accepted registration of the block, and no later one unregisters it. */
  ghost predicate Enrolled(calls: seq<Timed>, fb: Handle, k: nat) {
    && k < |calls| && calls[k].call.fb == fb && Accepts(Supervised(calls[..k]), calls[k].call)
    && forall j :: k < j < |calls| ==> calls[j].call != DoUnregister(fb)
  }

  lemma EnrolledBefore(calls: seq<Timed>, last: Timed, fb: Handle, k: nat)
    requires k < |calls|
    ensures Enrolled(calls + [last], fb, k) <==> Enrolled(calls, fb, k) && last.call != DoUnregister(fb)
  {
    var all := calls + [last];
    assert all[..k] == calls[..k] && all[|calls|] == last;
    assert forall j :: 0 <= j < |calls| ==> all[j] == calls[j];
  }

  lemma EnrolledLast(calls: seq<Timed>, last: Timed, fb: Handle)
    ensures Enrolled(calls + [last], fb, |calls|) <==> last.call.fb == fb && Accepts(Supervised(calls), last.call)
  {
    assert (calls + [last])[..|calls|] == calls;
  }

  lemma SupervisedStep(calls: seq<Timed>, last: Timed, fb: Handle)
    ensures fb in Supervised(calls + [last]) <==>
            (last.call.fb == fb && Accepts(Supervised(calls), last.call))
            || (fb in Supervised(calls) && last.call != DoUnregister(fb))
  {
    assert (calls + [last])[..|calls|] == calls;
  }

  /** A block is supervised if and only if its last accepted registration was not followed by an unregister call. */
  lemma {:induction false} SupervisedIff(calls: seq<Timed>, fb: Handle)
    ensures fb in Supervised(calls) <==> exists k: nat :: Enrolled(calls, fb, k)
  {
    if calls != [] {
      var before, last := calls[..|calls| - 1], calls[|calls| - 1];
      assert calls == before + [last];
      SupervisedIff(before, fb);
      SupervisedStep(before, last, fb);
      EnrolledLast(before, last, fb);
      if k: nat :| Enrolled(before, fb, k) {
        EnrolledBefore(before, last, fb, k);
      }
      if k: nat :| Enrolled(calls, fb, k) {
        if k < |before| {
          EnrolledBefore(before, last, fb, k);
        }
      }
    }
  }

  function Handles(list: seq<Watch>): set<Handle> {
    set i | 0 <= i < |list| :: list[i].handle
  }

  lemma {:induction false} HandlesCount(list: seq<Watch>)
    requires forall i, j :: 0 <= i < j < |list| ==> list[i].handle != list[j].handle
    ensures |Handles(list)| == |list|
  {
    if list != [] {
      var before, last := list[..|list| - 1], list[|list| - 1];
      HandlesCount(before);
      MoreHandles(before, last);
      assert list == before + [last];
    }
  }

  lemma IndexIn(list: seq<Watch>, fb: Handle)
    ensures IndexOf(list, fb) < |list| <==> fb in Handles(list)
  {
    if IndexOf(list, fb) < |list| {
      assert list[IndexOf(list, fb)].handle == fb;
    }
  }

  lemma MoreHandles(list: seq<Watch>, w: Watch)
    ensures Handles(list + [w]) == Handles(list) + {w.handle}
  {
    var more := list + [w];
    assert more[|list|] == w;
    forall i | 0 <= i < |list|
      ensures list[i].handle in Handles(more)
    {
      assert more[i] == list[i];
    }
  }

  lemma EnlistHandles(list: seq<Watch>, fb: Handle, ms: U32, now: nat)
    requires ListInv(list, now)
    ensures Handles(Enlist(list, fb, ms, now)) ==
            if Accepts(Handles(list), DoRegister(fb, ms)) then Handles(list) + {fb} else Handles(list)
  {
    IndexIn(list, fb);
    HandlesCount(list);
    if fb != 0 && ms != 0 {
      if IndexOf(list, fb) < |list| {
        SameHandles(list, Enlist(list, fb, ms, now));
      } else {
        MoreHandles(list, Watch(fb, ms, now));
      }
    }
  }

  lemma SameHandles(list: seq<Watch>, next: seq<Watch>)
    requires |next| == |list| && forall k :: 0 <= k < |list| ==> next[k].handle == list[k].handle
    ensures Handles(next) == Handles(list)
  {}

  lemma RemoveHandles(list: seq<Watch>, fb: Handle, now: nat)
    requires ListInv(list, now)
    ensures Handles(Remove(list, fb)) == Handles(list) - {fb}
  {
    var i, less := IndexOf(list, fb), Remove(list, fb);
    IndexIn(list, fb);
    if fb != 0 && i < |list| {
      assert forall k :: 0 <= k < |less| ==> less[k] == if k < i then list[k] else list[k + 1];
      forall h | h in Handles(list) && h != fb
        ensures h in Handles(less)
      {
        var k :| 0 <= k < |list| && list[k].handle == h;
        assert less[if k < i then k else k - 1].handle == h;
      }
    }
  }

  /** The list holds exactly the blocks under supervision. */
  lemma {:induction false} RunSupervises(calls: seq<Timed>, now: nat)
    requires InOrder(calls, now)
    ensures Handles(Run(calls)) == Supervised(calls) && |Run(calls)| == |Supervised(calls)|
  {
    RunInv(calls, now);
    HandlesCount(Run(calls));
    if calls != [] {
      var before, last := calls[..|calls| - 1], calls[|calls| - 1];
      RunSupervises(before, last.at);
      RunInv(before, last.at);
      match last.call
      case DoRegister(fb, ms) => EnlistHandles(Run(before), fb, ms, last.at);
      case DoCheckin(fb) => SameHandles(Run(before), Run(calls));
      case DoUnregister(fb) => RemoveHandles(Run(before), fb, last.at);
    }
  }

  lemma EnlistKeeps(list: seq<Watch>, fb: Handle, ms: U32, at: nat, now: nat)
    requires ListInv(list, at) && at <= now
    ensures ListInv(Enlist(list, fb, ms, at), now)
  {}

  lemma RefreshKeeps(list: seq<Watch>, fb: Handle, at: nat, now: nat)
    requires ListInv(list, at) && at <= now
    ensures ListInv(Refresh(list, fb, at), now)
  {}

  lemma RemoveKeeps(list: seq<Watch>, fb: Handle, at: nat, now: nat)
    requires ListInv(list, at) && at <= now
    ensures ListInv(Remove(list, fb), now)
  {
    var i, less := IndexOf(list, fb), Remove(list, fb);
    if fb != 0 && i < |list| {
      assert forall k :: 0 <= k < |less| ==> less[k] == if k < i then list[k] else list[k + 1];
    }
  }

  lemma StepKeeps(list: seq<Watch>, t: Timed, now: nat)
    requires ListInv(list, t.at) && t.at <= now
    ensures ListInv(Step(list, t), now)
  {
    match t.call
    case DoRegister(fb, ms) => EnlistKeeps(list, fb, ms, t.at, now);
    case DoCheckin(fb) => RefreshKeeps(list, fb, t.at, now);
    case DoUnregister(fb) => RemoveKeeps(list, fb, t.at, now);
  }

  /** Each watch of a list carries its block's last sign of life and last timeout. */
  ghost predicate Current(list: seq<Watch>, calls: seq<Timed>) {
    forall i :: 0 <= i < |list| ==>
                  list[i].since == LastSeen(calls, list[i].handle) && list[i].timeoutMs == LastTimeout(calls, list[i].handle)
  }

  lemma StepCurrent(list: seq<Watch>, calls: seq<Timed>, t: Timed)
    requires ListInv(list, t.at) && Current(list, calls)
    ensures Current(Step(list, t), calls + [t])
  {
    var next, all := Step(list, t), calls + [t];
    assert all[..|calls|] == calls;
    forall i | 0 <= i < |next|
      ensures next[i].since == LastSeen(all, next[i].handle) && next[i].timeoutMs == LastTimeout(all, next[i].handle)
    {
      var at := IndexOf(list, t.call.fb);
      if t.call.DoUnregister? && t.call.fb != 0 && at < |list| {
        assert next[i] == if i < at then list[i] else list[i + 1];
      }
    }
  }

  /** After any run the list is contiguous, its handles are distinct, and each watch is current. */
  lemma {:induction false} RunInv(calls: seq<Timed>, now: nat)
    requires InOrder(calls, now)
    ensures ListInv(Run(calls), now) && Current(Run(calls), calls)
  {
    if calls != [] {
      var before, last := calls[..|calls| - 1], calls[|calls| - 1];
      RunInv(before, last.at);
      StepKeeps(Run(before), last, now);
      StepCurrent(Run(before), before, last);
      assert before + [last] == calls;
    }
  }

  /** A registration of a block that is not supervised is refused exactly when its timeout is 0 or 64 others are. */
  lemma RefusedIff(calls: seq<Timed>, fb: Handle, timeoutMs: U32, at: nat)
    requires InOrder(calls, at) && fb != 0 && fb !in Supervised(calls)
    ensures fb !in Handles(Run(calls + [Timed(DoRegister(fb, timeoutMs), at)])) <==> timeoutMs == 0 || |Supervised(calls)| == 64
  {
    var all := calls + [Timed(DoRegister(fb, timeoutMs), at)];
    assert all[..|calls|] == calls;
    RunInv(calls, at);
    RunSupervises(calls, at);
    RunSupervises(all, at);
  }

  lemma {:induction false} MissedAreLate(list: seq<Watch>, now: nat)
    requires forall i :: 0 <= i < |list| ==>
               list[i].since <= now < list[i].since + WORD && list[i].timeoutMs <= MAX_TIMEOUT_MS
    ensures Missed(list, now % WORD) == LateOnes(list, now)
  {
    if list != [] {
      var w := list[|list| - 1];
      MissedAreLate(list[..|list| - 1], now);
      AgreesIff(w, now);
    }
  }

  /** A supervised block that has been silent for longer than the timeout of its last registration. */
  ghost predicate Overstays(calls: seq<Timed>, fb: Handle, now: nat) {
    fb in Supervised(calls) && now - LastSeen(calls, fb) > LastTimeout(calls, fb) * 1000
  }

  /** Over every run whose timeouts fit 32 bits of microseconds and whose silences are shorter than 2^32 us, a scan
      reports exactly the supervised blocks that have been silent for longer than their timeout, each once. */
  lemma ScanExact(calls: seq<Timed>, now: nat)
    requires InOrder(calls, now)
    requires forall i :: 0 <= i < |calls| && calls[i].call.DoRegister? ==> calls[i].call.timeoutMs <= MAX_TIMEOUT_MS
    requires forall fb :: fb in Supervised(calls) ==> now - LastSeen(calls, fb) < WORD
    ensures var missed := Missed(Run(calls), now % WORD);
            && (forall fb :: fb in missed <==> Overstays(calls, fb, now))
            && (forall i, j :: 0 <= i < j < |missed| ==> missed[i] != missed[j])
            && (missed == [] <==> forall fb :: !Overstays(calls, fb, now))
  {
    var list := Run(calls);
    RunInv(calls, now);
    RunSupervises(calls, now);
    forall i | 0 <= i < |list|
      ensures list[i].since <= now < list[i].since + WORD && list[i].timeoutMs <= MAX_TIMEOUT_MS
    {
      assert list[i].handle in Handles(list);
      TimeoutBound(calls, list[i].handle);
    }
    MissedAreLate(list, now);
    LateOnce(list, now);
    forall fb
      ensures fb in LateOnes(list, now) <==> Overstays(calls, fb, now)
    {
      LateOverstays(calls, fb, now);
    }
    SomeMember(LateOnes(list, now));
  }

  lemma SomeMember(handles: seq<Handle>)
    ensures handles == [] <==> forall fb :: fb !in handles
  {
    if handles != [] {
      assert handles[0] in handles;
    }
  }

  lemma LateOverstays(calls: seq<Timed>, fb: Handle, now: nat)
    requires InOrder(calls, now)
    ensures fb in LateOnes(Run(calls), now) <==> Overstays(calls, fb, now)
  {
    var list := Run(calls);
    RunInv(calls, now);
    RunSupervises(calls, now);
    LateListed(list, now, fb);
    if fb in Supervised(calls) {
      var i :| 0 <= i < |list| && list[i].handle == fb;
      assert list[i].since == LastSeen(calls, fb) && list[i].timeoutMs == LastTimeout(calls, fb);
    }
  }

  lemma {:induction false} LateListed(list: seq<Watch>, now: nat, fb: Handle)
    ensures fb in LateOnes(list, now) <==> exists i :: 0 <= i < |list| && list[i].handle == fb && Late(list[i], now)
  {
    if list != [] {
      var n := |list| - 1;
      var before := list[..n];
      LateListed(before, now, fb);
      if i :| 0 <= i < |before| && before[i].handle == fb && Late(before[i], now) {
        assert list[i].handle == fb && Late(list[i], now);
      }
      if i :| 0 <= i < |list| && list[i].handle == fb && Late(list[i], now) {
        if i < n {
          assert before[i] == list[i];
        }
      }
    }
  }

  lemma {:induction false} LateOnce(list: seq<Watch>, now: nat)
    requires forall i, j :: 0 <= i < j < |list| ==> list[i].handle != list[j].handle
    ensures var late := LateOnes(list, now); forall i, j :: 0 <= i < j < |late| ==> late[i] != late[j]
  {
    if list != [] {
      var n := |list| - 1;
      LateOnce(list[..n], now);
      LateListed(list[..n], now, list[n].handle);
      assert list[n].handle !in LateOnes(list[..n], now);
    }
  }

  lemma {:induction false} TimeoutBound(calls: seq<Timed>, fb: Handle)
    requires forall i :: 0 <= i < |calls| && calls[i].call.DoRegister? ==> calls[i].call.timeoutMs <= MAX_TIMEOUT_MS
    ensures LastTimeout(calls, fb) <= MAX_TIMEOUT_MS
  {
    if calls != [] {
      TimeoutBound(calls[..|calls| - 1], fb);
    }
  }

  // ---------------------------------------------------------------- registration order

  predicate Holds(list: seq<Watch>, fb: Handle) {
    IndexOf(list, fb) < |list|
  }

  /** The number of the call by which a supervised block joined the list. */
  function Joined(calls: seq<Timed>, fb: Handle): nat {
    if calls == [] then 0
    else
      var before := calls[..|calls| - 1];
      if Holds(Run(before), fb) then Joined(before, fb) else |calls|
  }

  lemma {:induction false} HoldsEach(list: seq<Watch>, i: nat)
    requires i < |list|
    ensures Holds(list, list[i].handle)
  {
    if list[0].handle != list[i].handle {
      HoldsEach(list[1..], i - 1);
    }
  }

  lemma {:induction false} JoinedPast(calls: seq<Timed>, fb: Handle)
    ensures Joined(calls, fb) <= |calls|
  {
    if calls != [] {
      JoinedPast(calls[..|calls| - 1], fb);
    }
  }

  /** The position before a call of what is at position i after it; the length for a block that joins. */
  function Origin(list: seq<Watch>, t: Timed, i: nat): nat {
    var at := IndexOf(list, t.call.fb);
    if t.call.DoUnregister? && t.call.fb != 0 && at < |list| && i >= at then i + 1 else i
  }

  lemma StepOrigin(list: seq<Watch>, t: Timed, i: nat)
    requires i < |Step(list, t)|
    ensures var from := Origin(list, t, i);
            if from < |list| then Step(list, t)[i].handle == list[from].handle
            else from == |list| && !Holds(list, Step(list, t)[i].handle)
  {}

  /** The list stays in the order in which its blocks joined. */
  lemma {:induction false} RegistrationOrder(calls: seq<Timed>, i: nat, j: nat)
    requires i < j < |Run(calls)|
    ensures Joined(calls, Run(calls)[i].handle) < Joined(calls, Run(calls)[j].handle)
  {
    var before, last := calls[..|calls| - 1], calls[|calls| - 1];
    var was := Run(before);
    var from, to := Origin(was, last, i), Origin(was, last, j);
    StepOrigin(was, last, i);
    StepOrigin(was, last, j);
    HoldsEach(was, from);
    if to < |was| {
      HoldsEach(was, to);
      RegistrationOrder(before, from, to);
    } else {
      JoinedPast(before, was[from].handle);
    }
  }

  // ---------------------------------------------------------------- the module's static state

  function SlotOf(w: Watch): Slot {
    Slot(w.handle, w.timeoutMs, w.since % WORD, true)
  }

  lemma ClosedUp(was: seq<Slot>, now: seq<Slot>, i: nat, count: nat)
    requires |was| == |now| == SLOTS && i < count <= SLOTS
    requires forall k :: i <= k < count - 1 ==> now[k] == was[k + 1]
    requires forall k :: 0 <= k < i || count - 1 <= k < SLOTS ==> now[k] == was[k]
    ensures now == was[..i] + was[i + 1..count] + was[count - 1..]
  {}

  /** The first slots are those of the blocks in the list. */
  ghost predicate Mirrors(slots: seq<Slot>, list: seq<Watch>) {
    |slots| == SLOTS && |list| <= SLOTS && forall i :: 0 <= i < |list| ==> slots[i] == SlotOf(list[i])
  }

  /** The slots of the remaining blocks after slot i was closed up. */
  lemma Shifted(was: seq<Slot>, shifted: seq<Slot>, now: seq<Slot>, list: seq<Watch>, i: nat)
    requires Mirrors(was, list) && i < |list|
    requires shifted == was[..i] + was[i + 1..|list|] + was[|list| - 1..]
    requires now == shifted[|list| - 1 := Slot(0, 0, 0, false)]
    ensures Mirrors(now, list[..i] + list[i + 1..])
  {
    var rest := list[..i] + list[i + 1..];
    forall k | 0 <= k < |rest|
      ensures now[k] == SlotOf(rest[k])
    {
      if k >= i {
        assert now[k] == was[k + 1];
      }
    }
  }

  class Monitor {
    const slots: array<Slot>
    var count: nat
    var kickSeq: U32
    var faultCount: U32
    const epOf: Handle -> nat // fb_engine__get_ep_id
    const self: nat           // the endpoint of the watchdog's own block, 0xFF before it is initialised
    const timing: bool        // whether the build traces timing events
    ghost var list: seq<Watch>

    ghost predicate Valid()
      reads this, slots
    {
      slots.Length == SLOTS && count == |list| && Mirrors(slots[..], list)
    }

    constructor (epOf: Handle -> nat, self: nat, timing: bool)
      ensures Valid() && fresh(slots) && list == [] && kickSeq == 0 && faultCount == 0
      ensures this.epOf == epOf && this.self == self && this.timing == timing
    {
      slots := new Slot[SLOTS](_ => Slot(0, 0, 0, false));
      count, kickSeq, faultCount, list := 0, 0, 0, [];
      this.epOf, this.self, this.timing := epOf, self, timing;
    }

    /** The search loop the three calls share: the slot of an active handle, or count. */
    method Lookup(fb: Handle) returns (i: nat)
      requires Valid()
      ensures i == IndexOf(list, fb)
    {
      i := 0;
      while i < count
        invariant i <= count
        invariant forall j :: 0 <= j < i ==> list[j].handle != fb
      {
        if slots[i].handle == fb && slots[i].active {
          FirstIndex(list, fb, i);
          return;
        }
        i := i + 1;
      }
      FirstIndex(list, fb, i);
    }

    /** embediq_wdg_register; clock is what the wrapping clock shows at true time now. */
    method Register(fb: Handle, timeoutMs: U32, clock: U32, ghost now: nat)
      requires Valid() && clock == now % WORD
      modifies this, slots
      ensures Valid() && list == Enlist(old(list), fb, timeoutMs, now)
      ensures kickSeq == old(kickSeq) && faultCount == old(faultCount)
    {
      if fb == 0 || timeoutMs == 0 {
        return;
      }
      var i := Lookup(fb);
      if i < count {
        slots[i] := slots[i].(timeoutMs := timeoutMs, lastUs := clock);
        list := list[i := Watch(fb, timeoutMs, now)];
        return;
      }
      if count < SLOTS {
        slots[count] := Slot(fb, timeoutMs, clock, true);
        list := list + [Watch(fb, timeoutMs, now)];
        count := count + 1;
      }
    }

    /** embediq_wdg_checkin. */
    method Checkin(fb: Handle, clock: U32, ghost now: nat)
      requires Valid() && clock == now % WORD
      modifies this, slots
      ensures Valid() && list == Refresh(old(list), fb, now)
      ensures kickSeq == old(kickSeq) && faultCount == old(faultCount)
    {
      if fb == 0 {
        return;
      }
      var i := Lookup(fb);
      if i < count {
        slots[i] := slots[i].(lastUs := clock);
        list := list[i := list[i].(since := now)];
      }
    }

    method ShiftDown(i: nat)
      requires slots.Length == SLOTS && i < count <= SLOTS
      modifies slots
      ensures slots[..] == old(slots[..i] + slots[i + 1..count] + slots[count - 1..])
    {
      ghost var was := slots[..];
      var j := i;
      while j < count - 1
        invariant i <= j <= count - 1
        invariant forall k :: i <= k < j ==> slots[k] == was[k + 1]
        invariant forall k :: 0 <= k < i || j <= k < SLOTS ==> slots[k] == was[k]
      {
        slots[j] := slots[j + 1];
        j := j + 1;
      }
      ClosedUp(was, slots[..], i, count);
    }

    /** embediq_wdg_unregister: the later slots move down by one. */
    method Unregister(fb: Handle)
      requires Valid()
      modifies this, slots
      ensures Valid() && list == Remove(old(list), fb)
      ensures kickSeq == old(kickSeq) && faultCount == old(faultCount)
    {
      if fb == 0 {
        return;
      }
      var i := Lookup(fb);
      if i < count {
        ghost var was := slots[..];
        ShiftDown(i);
        ghost var shifted := slots[..];
        slots[count - 1] := Slot(0, 0, 0, false);
        assert slots[..] == shifted[count - 1 := Slot(0, 0, 0, false)];
        Shifted(was, shifted, slots[..], list, i);
        list := list[..i] + list[i + 1..];
        count := count - 1;
      }
    }

    /** What a scan without a missed block does. */
    function Heartbeat(seqNo: U32): seq<Action> {
      [Kick] + if timing then [Emit(CHECKIN_EVENT, self, NOBODY, seqNo % 0x100, 0)] else []
    }

    /** The reactions to one missed block. */
    method Raise(ep: nat, timeoutMs: U32) returns (alarm: seq<Action>)
      ensures alarm == Alarm(ep, timeoutMs, self)
    {
      alarm := [Emit(FAULT_EVENT, ep, NOBODY, 0, MISSED_CHECKIN)];
      if self != NOBODY {
        alarm := alarm + [ReportFault(REASON)];
      }
      if self != NOBODY {
        alarm := alarm + [Publish(MISSED_CHECKIN, ep)];
      }
      alarm := alarm + [Emit(FAULT_EVENT, ep, NOBODY, timeoutMs % 0x100, MISSED_CHECKIN)];
    }

    method CountFault(ghost n: nat)
      requires faultCount == n % WORD
      modifies `faultCount
      ensures faultCount == (n + 1) % WORD
    {
      NextWord(n);
      faultCount := (faultCount + 1) % WORD;
    }

    /** The loop of monitor_scan over the slots. */
    method ScanSlots(clock: U32) returns (missed: seq<Handle>, actions: seq<Action>, allOk: bool)
      requires Valid()
      modifies `faultCount
      ensures Valid() && missed == Missed(list, clock) && allOk == (missed == [])
      ensures actions == Alarms(list, clock, epOf, self)
      ensures faultCount == (old(faultCount) + |missed|) % WORD
    {
      missed, actions, allOk := [], [], true;
      for i := 0 to count
        invariant missed == Missed(list[..i], clock) && allOk == (missed == [])
        invariant actions == Alarms(list[..i], clock, epOf, self)
        invariant faultCount == (old(faultCount) + |missed|) % WORD
      {
        var slot := slots[i];
        assert slot == slots[..][i];
        ScanMore(list, slot, i, clock, epOf, self);
        if slot.active {
          if Overdue(slot.lastUs, slot.timeoutMs, clock) {
            allOk := false;
            missed := missed + [slot.handle];
            var alarm := Raise(epOf(slot.handle), slot.timeoutMs);
            actions := actions + alarm;
            CountFault(old(faultCount) + |missed| - 1);
          }
        }
      }
      assert list[..count] == list;
    }

    /** monitor_scan: missed are the overdue blocks, actions all it does to others, in order. */
    method Scan(clock: U32) returns (missed: seq<Handle>, actions: seq<Action>)
      requires Valid()
      modifies `kickSeq, `faultCount
      ensures Valid() && missed == Missed(list, clock)
      ensures kickSeq == if missed == [] then (old(kickSeq) + 1) % WORD else old(kickSeq)
      ensures actions == Alarms(list, clock, epOf, self) + if missed == [] then Heartbeat(kickSeq) else []
      ensures Kick in actions <==> missed == []
      ensures missed == [] ==> actions == if timing then [Kick, Emit(0x50, self, 0xFF, kickSeq % 256, 0)] else [Kick]
      ensures faultCount == (old(faultCount) + |missed|) % WORD
    {
      var allOk;
      missed, actions, allOk := ScanSlots(clock);
      if allOk {
        kickSeq := (kickSeq + 1) % WORD;
        actions := actions + Heartbeat(kickSeq);
      }
      KickIff(list, clock, epOf, self, Heartbeat(kickSeq));
      NoAlarm(list, clock, epOf, self);
    }
  }

  lemma ScanMore(list: seq<Watch>, slot: Slot, i: nat, clock: U32, epOf: Handle -> nat, self: nat)
    requires i < |list| && slot == SlotOf(list[i])
    ensures slot.active
    ensures var before, after := list[..i], list[..i + 1];
            if Overdue(slot.lastUs, slot.timeoutMs, clock) then
              && Missed(after, clock) == Missed(before, clock) + [slot.handle]
              && Alarms(after, clock, epOf, self) ==
                   Alarms(before, clock, epOf, self) + Alarm(epOf(slot.handle), slot.timeoutMs, self)
            else
              && Missed(after, clock) == Missed(before, clock)
              && Alarms(after, clock, epOf, self) == Alarms(before, clock, epOf, self)
  {
    assert list[..i + 1][..i] == list[..i];
  }

  lemma {:induction false} FirstIndex(list: seq<Watch>, fb: Handle, i: nat)
    requires i <= |list| && (i < |list| ==> list[i].handle == fb)
    requires forall j :: 0 <= j < i ==> list[j].handle != fb
    ensures IndexOf(list, fb) == i
  {
    if i > 0 {
      FirstIndex(list[1..], fb, i - 1);
    }
  }
}
