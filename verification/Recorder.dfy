/** The Observatory's static state and the code that updates it in place
    (core/src/observatory/obs.c, hal/posix/peripherals/hal_obs_stream_posix.c). */
module Recorder {
  import opened Words
  import opened Wrappers
  import opened TraceFormat
  import opened Observatory

  /** The ring slot of the k-th oldest event. */
  function Slot(head: nat, k: nat): (s: nat)
    ensures s < RING_DEPTH
  {
    (head + k) % RING_DEPTH
  }

  ghost function Held(slots: seq<Event>, head: nat, count: nat): (r: seq<Event>)
    requires |slots| == RING_DEPTH && count <= RING_DEPTH
    ensures |r| == count
  {
    seq(count, k requires 0 <= k < count => slots[Slot(head, k)])
  }

  lemma SlotsApart(head: nat, i: nat, j: nat)
    requires i < RING_DEPTH && j < RING_DEPTH && Slot(head, i) == Slot(head, j)
    ensures i == j
  {}

  lemma FullTurn(k: nat)
    ensures (RING_DEPTH + k) % RING_DEPTH == k % RING_DEPTH
  {}

  lemma SlotAdvance(head: nat, k: nat)
    requires head < RING_DEPTH
    ensures Slot(Slot(head, 1), k) == Slot(head, k + 1)
  {
    if head + 1 < RING_DEPTH {
      assert Slot(head, 1) == head + 1;
    } else {
      assert Slot(head, 1) == 0;
      FullTurn(k);
    }
  }

  /** Storing behind the newest event of a ring with a free slot. */
  lemma HeldMore(slots: seq<Event>, head: nat, count: nat, e: Event)
    requires |slots| == RING_DEPTH && count < RING_DEPTH
    ensures Held(slots[Slot(head, count) := e], head, count + 1) == Held(slots, head, count) + [e]
  {
    forall k | 0 <= k < count
      ensures Slot(head, k) != Slot(head, count)
    {
      if Slot(head, k) == Slot(head, count) {
        SlotsApart(head, k, count);
      }
    }
  }

  /** Advancing the head of a full ring and storing over the oldest event. */
  lemma HeldOver(slots: seq<Event>, head: nat, e: Event)
    requires |slots| == RING_DEPTH && head < RING_DEPTH
    ensures var next := Slot(head, 1);
            Held(slots[Slot(next, 255) := e], next, 256) == Held(slots, head, 256)[1..] + [e]
  {
    var next := Slot(head, 1);
    HeldMore(slots, next, 255, e);
    forall k | 0 <= k < 255
      ensures Held(slots, next, 255)[k] == Held(slots, head, 256)[k + 1]
    {
      SlotAdvance(head, k);
    }
    assert Held(slots, next, 255) == Held(slots, head, 256)[1..];
  }

  class Recorder {
    const clock: Clock
    const ring: array<Event>
    var head: nat
    var count: nat
    var sequence: U32
    var total: U32
    var overflow: U32
    var transport: Transport
    var level: Byte
    var session: Option<Session>
    var ticks: nat
    // the stream driver's file handle, latch and file
    var open: bool
    var failed: bool
    var capacity: nat
    var data: seq<Byte>
    ghost var history: seq<Entry>
    ghost var fileSession: Option<Session>
    ghost var traced: seq<Event>

    ghost predicate Valid()
      reads this
    {
      ring.Length == RING_DEPTH && head < RING_DEPTH && count <= RING_DEPTH
    }

    ghost function RingView(): Log
      requires Valid()
      reads this, ring
    {
      Log(history, Held(ring[..], head, count), sequence, total, overflow, ticks)
    }

    ghost function StreamView(): Stream
      reads this
    {
      Stream(open, failed, capacity, data, fileSession, traced)
    }

    ghost function View(): State
      requires Valid()
      reads this, ring
    {
      State(RingView(), transport, level, session, StreamView())
    }

    constructor (clock: Clock, level: Byte)
      ensures Valid() && fresh(ring) && this.clock == clock && View() == Initial(level)
    {
      this.clock := clock;
      ring := new Event[RING_DEPTH];
      head, count, sequence, total, overflow, ticks := 0, 0, 0, 0, 0, 0;
      transport, this.level, session := Stdout, level, None;
      open, failed, capacity, data := false, false, 0, [];
      history, fileSession, traced := [], None, [];
    }

    /** ring_push; lost says that an event was overwritten. */
    method Store(e: Event) returns (lost: bool)
      requires Valid()
      modifies `head, `count, ring
      ensures Valid() && lost == (old(count) == RING_DEPTH)
      ensures Held(ring[..], head, count) == RingPush(old(Held(ring[..], head, count)), e)
    {
      ghost var slots := ring[..];
      lost := count == RING_DEPTH;
      if lost {
        HeldOver(slots, head, e);
        head := (head + 1) % RING_DEPTH;
      } else {
        HeldMore(slots, head, count, e);
        count := count + 1;
      }
      ring[(head + count - 1) % RING_DEPTH] := e;
      assert ring[..] == slots[Slot(head, count - 1) := e];
    }

    /** One event of emit: stamped, stored and counted. */
    method Push(r: Request, counted: bool) returns (e: Event)
      requires Valid()
      modifies `head, `count, `sequence, `total, `overflow, `ticks, `history, ring
      ensures Valid() && e == Stamp(clock, old(RingView()), r)
      ensures RingView() == Append(old(RingView()), e, !counted)
    {
      e := Event(r.eventType, r.source, r.target, r.state, r.msgId, clock(ticks), sequence);
      var lost := Store(e);
      if lost && counted {
        overflow := (overflow + 1) % WORD;
      }
      sequence := (sequence + 1) % WORD;
      total := (total + 1) % WORD;
      ticks := ticks + 1;
      history := history + [Entry(e, !counted)];
    }

    /** The ring part of emit: the report of pending drops, then the event. */
    method RecordEvent(r: Request) returns (e: Event)
      requires Valid()
      modifies `head, `count, `sequence, `total, `overflow, `ticks, `history, ring
      ensures Valid() && RingView() == Observatory.Record(clock, old(RingView()), r) && e == Last(RingView())
    {
      if overflow > 0 {
        var dropped := overflow;
        overflow := 0;
        var report := Push(OverflowReport(dropped), false);
      }
      e := Push(r, true);
    }

    /** embediq_obs_emit; a write that fails comes back here once, with the latch set. */
    method Emit(r: Request)
      requires Valid() && Ready(View())
      modifies this, ring
      ensures Valid() && View() == Observatory.Emit(clock, old(View()), r)
      decreases if transport != File then 0 else if failed then 1 else 2, 3
    {
      if transport == Null {
        return;
      }
      if !PassesLevel(level, r.eventType) {
        return;
      }
      ghost var o := View();
      var e := RecordEvent(r);
      assert View() == o.(log := RingView());
      if transport == File {
        EmitToFile(clock, o, r, RingView());
        WriteEvent(e);
      }
    }

    /** The event's record for the file. */
    method WriteEvent(e: Event)
      requires Valid() && Ready(View()) && transport == File
      modifies this, ring
      ensures Valid()
      ensures View() == Observatory.WriteTlv(clock, old(View()).(stream := Trace(old(StreamView()), e)), TLV_EVENT, EncodeEvent(e)).0
      decreases if failed then 1 else 2, 2
    {
      HandOver(e);
      var written := WriteTlv(TLV_EVENT, EncodeEvent(e));
    }

    /** EMBEDIQ_HAL_OBS_EMIT_ERROR. */
    method ReportError()
      requires Valid() && Ready(View()) && (transport == File ==> failed)
      modifies this, ring
      ensures Valid() && View() == Quiet(clock, old(View()), HAL_FAULT)
      decreases if transport != File then 0 else 1, 4
    {
      LatchedEmit(clock, View(), HAL_FAULT);
      Emit(HAL_FAULT);
    }

    /** The event counts as handed to the file while the latch is clear. */
    ghost method HandOver(e: Event)
      requires Valid()
      modifies `traced
      ensures Valid() && View() == old(View()).(stream := Trace(old(StreamView()), e))
    {
      if !failed {
        traced := traced + [e];
      }
    }

    /** write_tlv. */
    method WriteTlv(kind: nat, payload: seq<Byte>) returns (ok: bool)
      requires Valid() && Ready(View())
      modifies this, ring
      ensures Valid() && (View(), ok) == Observatory.WriteTlv(clock, old(View()), kind, payload)
      decreases if transport != File || failed then 1 else 2, 1
    {
      ok := Write(TlvHeader(kind, |payload|));
      if ok && |payload| > 0 {
        ok := Write(payload);
      }
    }

    /** hal_obs_stream_write. */
    method Write(bytes: seq<Byte>) returns (ok: bool)
      requires Valid() && Ready(View())
      modifies this, ring
      ensures Valid() && (View(), ok) == Observatory.Write(clock, old(View()), bytes)
      decreases if transport != File || failed then 1 else 2, 0
    {
      if !open {
        ReportError();
        return false;
      }
      if |bytes| == 0 {
        return true;
      }
      if failed {
        return false;
      }
      if |data| + |bytes| <= capacity {
        data := data + bytes;
        return true;
      }
      data := data + if |data| <= capacity then bytes[..capacity - |data|] else [];
      failed := true;
      ReportError();
      return false;
    }

    /** hal_obs_stream_flush. */
    method Flush(luck: Luck)
      requires Valid() && Ready(View())
      modifies this, ring
      ensures Valid() && View() == Observatory.Flush(clock, old(View()), luck)
    {
      if !open {
        ReportError();
        return;
      }
      if failed {
        return;
      }
      if !luck.flushes {
        failed := true;
        ReportError();
      }
    }

    /** hal_obs_stream_close. */
    method Close(luck: Luck)
      requires Valid() && (transport == File && open ==> luck.closes)
      modifies this, ring
      ensures Valid() && View() == Observatory.Close(clock, old(View()), luck)
    {
      if !open {
        return;
      }
      open := false;
      failed := false;
      if !luck.closes {
        ReportError();
      }
    }

    /** hal_obs_stream_open. */
    method Open(opens: bool, room: nat) returns (ok: bool)
      requires Valid() && Ready(View()) && (transport == File ==> opens)
      modifies this, ring
      ensures Valid() && ok == opens
      ensures View() == if opens then old(View()).(stream := Stream(true, false, room, [], old(session), []))
                        else Quiet(clock, old(View()).(stream := NO_STREAM), HAL_FAULT)
    {
      Renew(false, 0, None);
      assert RingView() == old(RingView());
      if !opens {
        ReportError();
        return false;
      }
      Renew(true, room, session);
      assert RingView() == old(RingView());
      return true;
    }

    /** The handle, the latch and the file change hands. */
    method Renew(isOpen: bool, room: nat, ghost owner: Option<Session>)
      requires Valid()
      modifies `open, `failed, `capacity, `data, `fileSession, `traced
      ensures Valid() && StreamView() == Stream(isOpen, false, room, [], owner, [])
    {
      open, failed, capacity, data := isOpen, false, room, [];
      fileSession, traced := owner, [];
    }

    /** embediq_obs_capture_begin. */
    method CaptureBegin(luck: Luck) returns (ok: bool)
      requires Valid() && Ready(View()) && CanBegin(View(), luck)
      requires session.Some? ==> |session.value.buildId| == 16
      modifies this, ring
      ensures Valid() && (View(), ok) == Observatory.CaptureBegin(clock, old(View()), luck)
    {
      if session.None? {
        return false;
      }
      ok := Open(luck.opens, luck.capacity);
      if !ok {
        return false;
      }
      PreambleWrote(clock, View(), session.value);
      ok := Write(FileHeader());
      if !ok {
        Close(luck);
        return false;
      }
      ok := WriteTlv(TLV_SESSION, EncodeSession(session.value));
      if !ok {
        Close(luck);
        return false;
      }
      Flush(luck);
      transport := File;
      return true;
    }

    /** embediq_obs_capture_end. */
    method CaptureEnd(luck: Luck) returns (ok: bool)
      requires Valid() && Ready(View()) && CanEnd(View(), luck)
      modifies this, ring
      ensures Valid() && (View(), ok) == Observatory.CaptureEnd(clock, old(View()), luck)
    {
      ok := WriteTlv(TLV_STREAM_END, []);
      Flush(luck);
      Close(luck);
      transport := Null;
    }

    /** obs__ring_read: index 0 is the oldest event. */
    method RingRead(index: nat) returns (e: Option<Event>)
      requires Valid()
      ensures e == if index < |View().log.ring| then Some(View().log.ring[index]) else None
    {
      if index >= count {
        return None;
      }
      return Some(ring[(head + index) % RING_DEPTH]);
    }
  }
}
