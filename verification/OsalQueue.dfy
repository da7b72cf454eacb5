/** The copy-by-value message queue of the OSAL (osal/posix/embediq_osal_posix.c): a ring of
    depth slots of item_size bytes in one byte buffer.  Each operation holds the queue's mutex
    from start to end, so it is one step here; the timeout-0 forms return instead of waiting. */
module OsalQueue {
  import opened Wrappers

  newtype byte = b: int | 0 <= b < 256

  const U16: nat := 0x1_0000

  /** The slot that holds the k-th queued item. */
  function Slot(head: nat, k: nat, depth: nat): (s: nat)
    requires head < depth && k <= depth
    ensures s < depth
  {
    if head + k < depth then head + k else head + k - depth
  }

  lemma ModIsSlot(head: nat, k: nat, depth: nat)
    requires head < depth && k <= depth
    ensures (head + k) % depth == Slot(head, k, depth)
  {
    DivMod(head + k, depth);
  }

  lemma DivMod(n: nat, d: nat)
    requires n <= 2 * d && d > 0
    ensures n < d ==> n % d == n
    ensures d <= n < 2 * d ==> n % d == n - d
    ensures n == 2 * d ==> n % d == 0
  {}

  /** Different items never share a slot while at most depth are queued. */
  lemma SlotsDistinct(head: nat, i: nat, j: nat, depth: nat)
    requires head < depth && i < j < depth
    ensures Slot(head, i, depth) != Slot(head, j, depth)
  {}

  lemma SlotFits(s: nat, size: nat, depth: nat)
    requires s < depth
    ensures s * size + size <= depth * size
  {
    assert (s + 1) * size == s * size + size;
    MulMono(s + 1, depth, size);
  }

  lemma MulMono(a: nat, b: nat, c: nat)
    requires a <= b
    ensures a * c <= b * c
  {}

  /** The bytes of different slots do not overlap. */
  lemma SlotsApart(s: nat, t: nat, size: nat)
    requires s != t
    ensures s * size + size <= t * size || t * size + size <= s * size
  {
    if s < t {
      SlotFits(s, size, t);
    } else {
      SlotFits(t, size, s);
    }
  }

  /** A bounded FIFO, the specification. */
  function Send<T>(depth: nat, items: seq<T>, item: T): seq<T> {
    if |items| < depth then items + [item] else items
  }

  function Receive<T>(items: seq<T>): seq<T> {
    if items == [] then [] else items[1..]
  }

  function SlotBytes(bytes: seq<byte>, s: nat, size: nat): (item: seq<byte>)
    requires s * size + size <= |bytes|
    ensures |item| == size
  {
    bytes[s * size..s * size + size]
  }

  /** The items a ring holds, oldest first. */
  function Items(bytes: seq<byte>, head: nat, count: nat, depth: nat, size: nat): (items: seq<seq<byte>>)
    requires |bytes| == depth * size && count <= depth && (depth > 0 ==> head < depth)
    ensures |items| == count
  {
    seq(count, k requires 0 <= k < count => Item(bytes, head, k, depth, size))
  }

  function Item(bytes: seq<byte>, head: nat, k: nat, depth: nat, size: nat): (item: seq<byte>)
    requires |bytes| == depth * size && k < depth && head < depth
    ensures |item| == size
  {
    SlotFits(Slot(head, k, depth), size, depth);
    SlotBytes(bytes, Slot(head, k, depth), size)
  }

  /** The buffer after an item has been copied into slot s. */
  function Overlay(bytes: seq<byte>, s: nat, size: nat, item: seq<byte>): (r: seq<byte>)
    requires s * size + size <= |bytes| && |item| == size
    ensures |r| == |bytes|
  {
    bytes[..s * size] + item + bytes[s * size + size..]
  }

  lemma OverlaySlots(bytes: seq<byte>, s: nat, t: nat, size: nat, item: seq<byte>)
    requires s * size + size <= |bytes| && t * size + size <= |bytes| && |item| == size
    ensures SlotBytes(Overlay(bytes, s, size, item), t, size) == if t == s then item else SlotBytes(bytes, t, size)
  {
    if t != s {
      SlotsApart(s, t, size);
    }
  }

  /** Copying into the tail slot appends to the queue and disturbs none of its items. */
  lemma AppendItem(bytes: seq<byte>, head: nat, count: nat, depth: nat, size: nat, item: seq<byte>)
    requires |bytes| == depth * size && count < depth && head < depth && |item| == size
    requires Slot(head, count, depth) * size + size <= |bytes|
    ensures Items(Overlay(bytes, Slot(head, count, depth), size, item), head, count + 1, depth, size)
         == Items(bytes, head, count, depth, size) + [item]
  {
    var tail := Slot(head, count, depth);
    var after := Overlay(bytes, tail, size, item);
    forall k | 0 <= k <= count
      ensures Item(after, head, k, depth, size) == if k == count then item else Item(bytes, head, k, depth, size)
    {
      if k < count { SlotsDistinct(head, k, count, depth); }
      SlotFits(Slot(head, k, depth), size, depth);
      OverlaySlots(bytes, tail, Slot(head, k, depth), size, item);
    }
  }

  /** Advancing the head drops the oldest item. */
  lemma DropItem(bytes: seq<byte>, head: nat, count: nat, depth: nat, size: nat)
    requires |bytes| == depth * size && 0 < count <= depth && head < depth
    ensures Items(bytes, Slot(head, 1, depth), count - 1, depth, size) == Items(bytes, head, count, depth, size)[1..]
  {
    forall k | 0 <= k < count - 1
      ensures Item(bytes, Slot(head, 1, depth), k, depth, size) == Item(bytes, head, k + 1, depth, size)
    {}
  }

  class Queue {
    const depth: nat
    const itemSize: nat
    const buf: array<byte>
    var head: nat
    var tail: nat
    var count: nat

    ghost predicate Valid()
      reads this
    {
      && depth < U16 && itemSize < U16
      && buf.Length == depth * itemSize
      && count <= depth
      && (depth > 0 ==> head < depth && tail == Slot(head, count, depth))
    }

    ghost function Contents(): (items: seq<seq<byte>>)
      requires Valid()
      reads this, buf
      ensures |items| == count
    {
      Items(buf[..], head, count, depth, itemSize)
    }

    constructor (depth: nat, itemSize: nat)
      requires depth < U16 && itemSize < U16
      ensures Valid() && this.depth == depth && this.itemSize == itemSize
      ensures fresh(buf) && Contents() == []
    {
      this.depth := depth;
      this.itemSize := itemSize;
      buf := new byte[depth * itemSize];
      head := 0;
      tail := 0;
      count := 0;
    }

    /** queue_create; memory says whether both allocations succeed. */
    static method Create(depth: nat, itemSize: nat, memory: bool) returns (q: Queue?)
      requires depth < U16 && itemSize < U16
      ensures q == null <==> !memory
      ensures q != null ==>
                && fresh(q) && fresh(q.buf) && q.Valid()
                && q.depth == depth && q.itemSize == itemSize && q.Contents() == []
    {
      if !memory {
        return null;
      }
      q := new Queue(depth, itemSize);
    }

    method CopyIn(slot: nat, item: seq<byte>)
      requires |item| == itemSize && slot * itemSize + itemSize <= buf.Length
      modifies buf
      ensures buf[..] == Overlay(old(buf[..]), slot, itemSize, item)
    {
      var base := slot * itemSize;
      forall k | 0 <= k < itemSize {
        buf[base + k] := item[k];
      }
    }

    /** queue_send with timeout 0. */
    method TrySend(item: seq<byte>) returns (ok: bool)
      requires Valid() && |item| == itemSize
      modifies this`tail, this`count, buf
      ensures Valid()
      ensures ok <==> |old(Contents())| < depth
      ensures Contents() == Send(depth, old(Contents()), item)
    {
      if count >= depth {
        return false;
      }
      SlotFits(tail, itemSize, depth);
      AppendItem(buf[..], head, count, depth, itemSize, item);
      CopyIn(tail, item);
      ModIsSlot(tail, 1, depth);
      tail := (tail + 1) % depth;
      count := count + 1;
      ok := true;
    }

    /** queue_recv with timeout 0. */
    method TryReceive() returns (item: Option<seq<byte>>)
      requires Valid()
      modifies this`head, this`count
      ensures Valid()
      ensures item == if old(Contents()) == [] then None else Some(old(Contents())[0])
      ensures Contents() == Receive(old(Contents()))
    {
      if count == 0 {
        return None;
      }
      SlotFits(head, itemSize, depth);
      item := Some(buf[head * itemSize..head * itemSize + itemSize]);
      DropItem(buf[..], head, count, depth, itemSize);
      assert item.value == Item(buf[..], head, 0, depth, itemSize);
      ModIsSlot(head, 1, depth);
      head := (head + 1) % depth;
      count := count - 1;
    }

    method Count() returns (n: nat)
      requires Valid()
      ensures n == |Contents()|
    {
      n := count;
    }
  }
}
