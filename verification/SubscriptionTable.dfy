/** The flat subscription table of the message bus (core/src/bus/message_bus.c): built once,
    sorted in place by insertion sort, searched by leftmost binary search. */
module SubscriptionTable {
  const MAX_SUBSCRIPTIONS: nat := 512

  datatype Sub = Sub(msgId: nat, ep: nat)

  /** All subscription entries in registration order; subs[i] is the list of block i. */
  function Flatten(subs: seq<seq<nat>>): seq<Sub> {
    if subs == [] then []
    else Flatten(subs[..|subs| - 1]) + Entries(subs[|subs| - 1], |subs| - 1)
  }

  function Entries(ids: seq<nat>, ep: nat): (r: seq<Sub>)
    ensures |r| == |ids|
  {
    seq(|ids|, k requires 0 <= k < |ids| => Sub(ids[k], ep))
  }

  /** The entries for one message id, in table order. */
  function Matching(table: seq<Sub>, id: nat): seq<Sub> {
    if table == [] then []
    else
      var last := table[|table| - 1];
      Matching(table[..|table| - 1], id) + if last.msgId == id then [last] else []
  }

  /** Reference routing: visit every block and every entry of it. */
  function NaiveScan(subs: seq<seq<nat>>, id: nat): seq<nat> {
    if subs == [] then []
    else NaiveScan(subs[..|subs| - 1], id) + Copies(subs[|subs| - 1], |subs| - 1, id)
  }

  function Copies(ids: seq<nat>, ep: nat, id: nat): seq<nat> {
    if ids == [] then []
    else Copies(ids[..|ids| - 1], ep, id) + if ids[|ids| - 1] == id then [ep] else []
  }

  function Endpoints(entries: seq<Sub>): (r: seq<nat>)
    ensures |r| == |entries|
  {
    seq(|entries|, k requires 0 <= k < |entries| => entries[k].ep)
  }

  ghost predicate Sorted(table: seq<Sub>) {
    forall i, j :: 0 <= i < j < |table| ==> table[i].msgId <= table[j].msgId
  }

  /** Same entries, and those of one message id still in the same order. */
  ghost predicate StableArrangement(a: seq<Sub>, b: seq<Sub>) {
    forall id :: Matching(a, id) == Matching(b, id)
  }

  lemma {:induction false} MatchingConcat(a: seq<Sub>, b: seq<Sub>, id: nat)
    ensures Matching(a + b, id) == Matching(a, id) + Matching(b, id)
  {
    if b == [] {
      assert a + b == a;
    } else {
      assert (a + b)[..|a + b| - 1] == a + b[..|b| - 1];
      MatchingConcat(a, b[..|b| - 1], id);
    }
  }

  lemma {:induction false} MatchingNone(a: seq<Sub>, id: nat)
    ensures Matching(a, id) == [] <==> forall k :: 0 <= k < |a| ==> a[k].msgId != id
  {
    if a != [] {
      MatchingNone(a[..|a| - 1], id);
    }
  }

  lemma {:induction false} MatchingAll(a: seq<Sub>, id: nat)
    requires forall k :: 0 <= k < |a| ==> a[k].msgId == id
    ensures Matching(a, id) == a
  {
    if a != [] {
      MatchingAll(a[..|a| - 1], id);
    }
  }

  lemma InsertMatching(lo: seq<Sub>, key: Sub, hi: seq<Sub>, id: nat)
    requires forall k :: 0 <= k < |hi| ==> hi[k].msgId > key.msgId
    ensures Matching(lo + [key] + hi, id) == Matching(lo + hi + [key], id)
  {
    MatchingConcat(lo + [key], hi, id);
    MatchingConcat(lo, [key], id);
    MatchingConcat(lo + hi, [key], id);
    MatchingConcat(lo, hi, id);
    MatchingNone(hi, id);
    MatchingNone([key], id);
  }

  /** Placing the key behind everything not greater keeps a prefix sorted and stable. */
  lemma InsertStable(lo: seq<Sub>, key: Sub, hi: seq<Sub>)
    requires Sorted(lo + hi)
    requires forall k :: 0 <= k < |lo| ==> lo[k].msgId <= key.msgId
    requires forall k :: 0 <= k < |hi| ==> hi[k].msgId > key.msgId
    ensures Sorted(lo + [key] + hi)
    ensures StableArrangement(lo + [key] + hi, lo + hi + [key])
  {
    forall id ensures Matching(lo + [key] + hi, id) == Matching(lo + hi + [key], id) {
      InsertMatching(lo, key, hi, id);
    }
    InsertSorted(lo, key, hi);
  }

  lemma InsertSorted(lo: seq<Sub>, key: Sub, hi: seq<Sub>)
    requires Sorted(lo + hi)
    requires forall k :: 0 <= k < |lo| ==> lo[k].msgId <= key.msgId
    requires forall k :: 0 <= k < |hi| ==> hi[k].msgId > key.msgId
    ensures Sorted(lo + [key] + hi)
  {
    var all, was := lo + [key] + hi, lo + hi;
    forall i, j | 0 <= i < j < |all| ensures all[i].msgId <= all[j].msgId {
      if i != |lo| && j != |lo| {
        assert all[i] == was[if i < |lo| then i else i - 1];
        assert all[j] == was[if j < |lo| then j else j - 1];
      }
    }
  }

  lemma {:induction false} CountMatching(a: seq<Sub>, x: Sub)
    ensures multiset(a)[x] == multiset(Matching(a, x.msgId))[x]
  {
    if a != [] {
      var front, last := a[..|a| - 1], a[|a| - 1];
      assert a == front + [last];
      CountMatching(front, x);
    }
  }

  /** A stable arrangement is a permutation. */
  lemma StableIsPermutation(a: seq<Sub>, b: seq<Sub>)
    requires StableArrangement(a, b)
    ensures multiset(a) == multiset(b)
  {
    forall x: Sub ensures multiset(a)[x] == multiset(b)[x] {
      CountMatching(a, x);
      CountMatching(b, x);
    }
  }

  lemma BlockMatching(lo: seq<Sub>, mid: seq<Sub>, hi: seq<Sub>, id: nat)
    requires forall k :: 0 <= k < |lo| ==> lo[k].msgId != id
    requires forall k :: 0 <= k < |mid| ==> mid[k].msgId == id
    requires forall k :: 0 <= k < |hi| ==> hi[k].msgId != id
    ensures Matching(lo + mid + hi, id) == mid
  {
    MatchingConcat(lo + mid, hi, id);
    MatchingConcat(lo, mid, id);
    MatchingNone(lo, id);
    MatchingAll(mid, id);
    MatchingNone(hi, id);
  }

  /** In a sorted table the entries of one id are the block that starts at the leftmost one. */
  lemma SortedBlock(table: seq<Sub>, id: nat, first: nat, end: nat)
    requires Sorted(table) && first <= end <= |table|
    requires forall k :: 0 <= k < first ==> table[k].msgId != id
    requires forall k :: first <= k < end ==> table[k].msgId == id
    requires end < |table| ==> table[end].msgId != id
    requires first < end
    ensures Matching(table, id) == table[first..end]
  {
    var lo, mid, hi := table[..first], table[first..end], table[end..];
    forall k | 0 <= k < |hi| ensures hi[k].msgId != id {
      assert hi[k] == table[end + k];
      assert table[first].msgId <= table[end].msgId;
      if k > 0 { assert table[end].msgId <= table[end + k].msgId; }
    }
    BlockMatching(lo, mid, hi, id);
    ThreeParts(table, first, end);
  }

  lemma ThreeParts(table: seq<Sub>, first: nat, end: nat)
    requires first <= end <= |table|
    ensures table == table[..first] + table[first..end] + table[end..]
  {}

  /** The table keeps the first MAX_SUBSCRIPTIONS entries and silently forgets the others. */
  function Kept(subs: seq<seq<nat>>): seq<Sub> {
    Capped(Flatten(subs))
  }

  function Capped(entries: seq<Sub>): seq<Sub> {
    if |entries| <= MAX_SUBSCRIPTIONS then entries else entries[..MAX_SUBSCRIPTIONS]
  }

  /** Where a message id is routed to, one element per copy. */
  function Targets(subs: seq<seq<nat>>, id: nat): seq<nat> {
    Endpoints(Matching(Kept(subs), id))
  }

  lemma EndpointsConcat(a: seq<Sub>, b: seq<Sub>)
    ensures Endpoints(a + b) == Endpoints(a) + Endpoints(b)
  {}

  lemma {:induction false} EntriesCopies(ids: seq<nat>, ep: nat, id: nat)
    ensures Endpoints(Matching(Entries(ids, ep), id)) == Copies(ids, ep, id)
  {
    if ids != [] {
      var front := ids[..|ids| - 1];
      assert Entries(ids, ep)[..|ids| - 1] == Entries(front, ep);
      EntriesCopies(front, ep, id);
      EndpointsConcat(Matching(Entries(front, ep), id), if ids[|ids| - 1] == id then [Sub(id, ep)] else []);
    }
  }

  lemma {:induction false} FlattenScan(subs: seq<seq<nat>>, id: nat)
    ensures Endpoints(Matching(Flatten(subs), id)) == NaiveScan(subs, id)
  {
    if subs != [] {
      var front, ep := subs[..|subs| - 1], |subs| - 1;
      FlattenScan(front, id);
      MatchingConcat(Flatten(front), Entries(subs[ep], ep), id);
      EndpointsConcat(Matching(Flatten(front), id), Matching(Entries(subs[ep], ep), id));
      EntriesCopies(subs[ep], ep, id);
    }
  }

  /** Routing through the table equals the naive scan exactly for the ids that no forgotten
      entry names; with at most MAX_SUBSCRIPTIONS entries that is every id. */
  lemma TargetsAreNaive(subs: seq<seq<nat>>, id: nat)
    ensures Targets(subs, id) <= NaiveScan(subs, id)
    ensures Targets(subs, id) == NaiveScan(subs, id) <==>
            forall k :: MAX_SUBSCRIPTIONS <= k < |Flatten(subs)| ==> Flatten(subs)[k].msgId != id
  {
    var all := Flatten(subs);
    FlattenScan(subs, id);
    if |all| > MAX_SUBSCRIPTIONS {
      var lo, hi := all[..MAX_SUBSCRIPTIONS], all[MAX_SUBSCRIPTIONS..];
      assert all == lo + hi;
      MatchingConcat(lo, hi, id);
      EndpointsConcat(Matching(lo, id), Matching(hi, id));
      MatchingNone(hi, id);
      forall k | MAX_SUBSCRIPTIONS <= k < |all| ensures all[k] == hi[k - MAX_SUBSCRIPTIONS] {}
      forall k | 0 <= k < |hi| ensures hi[k] == all[k + MAX_SUBSCRIPTIONS] {}
    }
  }

  /** Each block gets as many copies as its list names the id. */
  lemma {:induction false} OneCopyPerEntry(subs: seq<seq<nat>>, id: nat, ep: nat)
    ensures multiset(NaiveScan(subs, id))[ep] == if ep < |subs| then multiset(subs[ep])[id] else 0
  {
    if subs != [] {
      var front, last := subs[..|subs| - 1], |subs| - 1;
      OneCopyPerEntry(front, id, ep);
      CopiesCount(subs[last], last, id, ep);
      assert multiset(NaiveScan(subs, id)) == multiset(NaiveScan(front, id)) + multiset(Copies(subs[last], last, id));
    }
  }

  lemma {:induction false} CopiesCount(ids: seq<nat>, ep: nat, id: nat, other: nat)
    ensures multiset(Copies(ids, ep, id))[other] == if other == ep then multiset(ids)[id] else 0
  {
    if ids != [] {
      var front, last := ids[..|ids| - 1], ids[|ids| - 1];
      assert ids == front + [last];
      CopiesCount(front, ep, id, other);
    }
  }

  /** The blocks are visited in registration order. */
  lemma {:induction false} ScanOrdered(subs: seq<seq<nat>>, id: nat)
    ensures forall i, j :: 0 <= i < j < |NaiveScan(subs, id)| ==> NaiveScan(subs, id)[i] <= NaiveScan(subs, id)[j]
    ensures forall i :: 0 <= i < |NaiveScan(subs, id)| ==> NaiveScan(subs, id)[i] < |subs|
  {
    if subs != [] {
      var front, last := subs[..|subs| - 1], |subs| - 1;
      ScanOrdered(front, id);
      CopiesSame(subs[last], last, id);
    }
  }

  lemma {:induction false} CopiesSame(ids: seq<nat>, ep: nat, id: nat)
    ensures forall i :: 0 <= i < |Copies(ids, ep, id)| ==> Copies(ids, ep, id)[i] == ep
  {
    if ids != [] {
      CopiesSame(ids[..|ids| - 1], ep, id);
    }
  }
}
