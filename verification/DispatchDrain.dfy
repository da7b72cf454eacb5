/** A dispatch thread that works off its queues by its own steps, with sub-functions that publish
    (core/src/registry/fb_engine.c). */
module DispatchDrain {
  import opened Wrappers
  import opened Dispatch

  datatype Delivery = Delivery(ep: nat, prio: nat, msg: Msg)

  /** What the sub-functions publish for each message. */
  type Script = Msg -> seq<Delivery>

  /** Deliveries that never wait and that are not to the publishing endpoint itself. */
  predicate Harmless(d: Delivery, i: nat, endpoints: nat) {
    d.ep < endpoints && d.ep != i && (d.prio == 1 || d.prio == 2)
  }

  ghost predicate ScriptOk(script: Script, i: nat, endpoints: nat) {
    forall m, n: nat :: n < |script(m)| ==> Harmless(script(m)[n], i, endpoints)
  }

  function Scripted(script: Script, msgs: seq<Msg>): seq<Delivery> {
    if msgs == [] then [] else script(msgs[0]) + Scripted(script, msgs[1..])
  }

  /** A step of dispatch thread i, also inside a publish. */
  predicate Own(l: Label, i: nat) {
    l == ThreadStep(i) || l == PublisherStep(i) || (l.Publish? && l.pub == i)
  }

  function BegunBy(l: Label): seq<Delivery> {
    if l.Publish? then [Delivery(l.ep, l.prio, l.msg)] else []
  }

  /** The deliveries begun by these steps. */
  function Begun(labels: seq<Label>): seq<Delivery> {
    if labels == [] then [] else BegunBy(labels[0]) + Begun(labels[1..])
  }

  lemma {:induction false} BegunBoth(a: seq<Label>, b: seq<Label>)
    ensures Begun(a + b) == Begun(a) + Begun(b)
  {
    if a == [] {
      assert a + b == b && [] + Begun(b) == Begun(b);
    } else {
      BegunBoth(a[1..], b);
      assert a + b == [a[0]] + (a[1..] + b);
      BegunFront(a[0], a[1..] + b);
      Regroup(BegunBy(a[0]), Begun(a[1..]), Begun(b));
    }
  }

  lemma BegunFront(l: Label, rest: seq<Label>)
    ensures Begun([l] + rest) == BegunBy(l) + Begun(rest)
  {
    assert ([l] + rest)[1..] == rest;
  }

  lemma Regroup(a: seq<Delivery>, b: seq<Delivery>, c: seq<Delivery>)
    ensures a + (b + c) == (a + b) + c
  {}

  /** Other endpoints kept their threads; their queues and counts may differ. */
  ghost predicate Beside(s: State, t: State, i: nat) {
    && |t.eps| == |s.eps| && t == s.(eps := t.eps, pubs := t.pubs)
    && |t.pubs| == |s.pubs| && (forall k :: 0 <= k < |s.pubs| && k != i ==> t.pubs[k] == s.pubs[k])
    && forall j :: 0 <= j < |s.eps| && j != i ==> t.eps[j] == s.eps[j].(queues := t.eps[j].queues, sem := t.eps[j].sem)
  }

  /** t follows from s by steps of thread i that begin these deliveries. */
  ghost predicate Works(s: State, labels: seq<Label>, t: State, i: nat, ds: seq<Delivery>) {
    && Reaches(s, labels, t) && WellFormed(t) && Beside(s, t, i)
    && (forall n :: 0 <= n < |labels| ==> Own(labels[n], i))
    && Begun(labels) == ds
  }

  lemma WorksBoth(s: State, a: seq<Label>, m: State, b: seq<Label>, t: State, i: nat, ds: seq<Delivery>, es: seq<Delivery>)
    requires Works(s, a, m, i, ds) && Works(m, b, t, i, es)
    ensures Works(s, a + b, t, i, ds + es)
  {
    ReachesBoth(s, a, m, b, t);
    BegunBoth(a, b);
    forall j | 0 <= j < |s.eps| && j != i
      ensures t.eps[j] == s.eps[j].(queues := t.eps[j].queues, sem := t.eps[j].sem)
    {
      assert m.eps[j] == s.eps[j].(queues := m.eps[j].queues, sem := m.eps[j].sem);
    }
  }

  lemma WorksStep(s: State, l: Label, i: nat)
    requires WellFormed(s) && i < |s.eps| && Own(l, i) && Step(s, l).Some?
    requires l == PublisherStep(i) ==> s.pubs[i].ep != i
    ensures Works(s, [l], Step(s, l).value, i, BegunBy(l))
  {
    OneStep(s, l, Step(s, l).value);
    StepFits(s, l);
    assert [l][1..] == [];
    if l.PublisherStep? {
      assert PublisherFits(s, s.pubs[i]);
    }
  }

  function Rank(p: Publisher): nat {
    match p
    case Idle => 0
    case Notify(_) => 1
    case Resend(_, _) => 2
    case DropOldest(_, _) => 3
    case Send(_, _, _) => 4
  }

  /** A publish that is not HIGH comes to its end. */
  lemma {:induction false} FinishPublish(s: State, i: nat) returns (labels: seq<Label>, t: State)
    requires WellFormed(s) && i < |s.eps|
    requires s.pubs[i].Idle? || (s.pubs[i].ep != i && (s.pubs[i].Send? ==> s.pubs[i].prio != 0))
    ensures Works(s, labels, t, i, []) && t.pubs[i].Idle? && t.eps[i] == s.eps[i]
    decreases Rank(s.pubs[i])
  {
    if s.pubs[i].Idle? {
      labels, t := [], s;
    } else {
      assert PublisherFits(s, s.pubs[i]);
      var go := PublisherStep(i);
      var m := Step(s, go).value;
      StepFits(s, go);
      WorksStep(s, go, i);
      var rest;
      rest, t := FinishPublish(m, i);
      WorksBoth(s, [go], m, rest, t, i, [], []);
      labels := [go] + rest;
    }
  }

  lemma DeliverOne(s: State, i: nat, d: Delivery) returns (labels: seq<Label>, t: State)
    requires WellFormed(s) && i < |s.eps| && s.eps[i].thread.Handling? && s.pubs[i].Idle? && Harmless(d, i, |s.eps|)
    ensures Works(s, labels, t, i, [d]) && t.pubs[i].Idle? && t.eps[i] == s.eps[i]
  {
    var begin := Publish(i, d.ep, d.prio, d.msg);
    var m := Step(s, begin).value;
    StepFits(s, begin);
    WorksStep(s, begin, i);
    var rest;
    rest, t := FinishPublish(m, i);
    WorksBoth(s, [begin], m, rest, t, i, [d], []);
    labels := [begin] + rest;
    assert [d] + [] == [d];
  }

  lemma {:induction false} DeliverEach(s: State, i: nat, ds: seq<Delivery>) returns (labels: seq<Label>, t: State)
    requires WellFormed(s) && i < |s.eps| && s.eps[i].thread.Handling? && s.pubs[i].Idle?
    requires forall n :: 0 <= n < |ds| ==> Harmless(ds[n], i, |s.eps|)
    ensures Works(s, labels, t, i, ds) && t.pubs[i].Idle? && t.eps[i] == s.eps[i]
    decreases |ds|
  {
    if ds == [] {
      labels, t := [], s;
    } else {
      var first, m := DeliverOne(s, i, ds[0]);
      var rest;
      rest, t := DeliverEach(m, i, ds[1..]);
      WorksBoth(s, first, m, rest, t, i, [ds[0]], ds[1..]);
      labels := first + rest;
      assert [ds[0]] + ds[1..] == ds;
    }
  }

  /** The thread of endpoint i becomes e in one step. */
  lemma ThreadGoes(s: State, i: nat, e: Endpoint)
    requires WellFormed(s) && i < |s.eps| && s.pubs[i].Idle? && Advance(s.eps[i], s.running, s.shutdown) == Some(e)
    ensures var t := s.(eps := s.eps[i := e]); Works(s, [ThreadStep(i)], t, i, [])
  {
    WorksStep(s, ThreadStep(i), i);
  }

  /** From the poll of queue p, the higher ones being empty, to the first message. */
  lemma {:induction false} TakeFirst(s: State, i: nat, p: nat) returns (labels: seq<Label>)
    requires WellFormed(s) && i < |s.eps| && s.pubs[i].Idle? && s.eps[i].thread.Scan? && s.eps[i].thread.prio <= p < 3
    requires s.eps[i].queues[p] != [] && forall q :: s.eps[i].thread.prio <= q < p ==> s.eps[i].queues[q] == []
    ensures var e := Pop(s.eps[i], p).(thread := Handling(s.eps[i].queues[p][0]));
            Works(s, labels, s.(eps := s.eps[i := e]), i, [])
    decreases p - s.eps[i].thread.prio
  {
    var at := s.eps[i].thread.prio;
    if at == p {
      ThreadGoes(s, i, Pop(s.eps[i], p).(thread := Handling(s.eps[i].queues[p][0])));
      labels := [ThreadStep(i)];
    } else {
      var m := s.(eps := s.eps[i := s.eps[i].(thread := Scan(at + 1))]);
      ThreadGoes(s, i, m.eps[i]);
      var rest := TakeFirst(m, i, p);
      var e := Pop(s.eps[i], p).(thread := Handling(s.eps[i].queues[p][0]));
      assert m.eps[i := e] == s.eps[i := e];
      WorksBoth(s, [ThreadStep(i)], m, rest, s.(eps := s.eps[i := e]), i, [], []);
      labels := [ThreadStep(i)] + rest;
    }
  }

  /** Three polls of empty queues. */
  lemma {:induction false} FindNothing(s: State, i: nat) returns (labels: seq<Label>)
    requires WellFormed(s) && i < |s.eps| && s.pubs[i].Idle? && s.eps[i].thread.Scan?
    requires forall q :: s.eps[i].thread.prio <= q < 3 ==> s.eps[i].queues[q] == []
    ensures Works(s, labels, s.(eps := s.eps[i := s.eps[i].(thread := LoopHead)]), i, [])
    decreases 3 - s.eps[i].thread.prio
  {
    var at := s.eps[i].thread.prio;
    var e := s.eps[i].(thread := LoopHead);
    if at == 2 {
      ThreadGoes(s, i, e);
      labels := [ThreadStep(i)];
    } else {
      var m := s.(eps := s.eps[i := s.eps[i].(thread := Scan(at + 1))]);
      ThreadGoes(s, i, m.eps[i]);
      var rest := FindNothing(m, i);
      assert m.eps[i := e] == s.eps[i := e];
      WorksBoth(s, [ThreadStep(i)], m, rest, s.(eps := s.eps[i := e]), i, [], []);
      labels := [ThreadStep(i)] + rest;
    }
  }

  /** The message in hand is worked off. */
  lemma HandleOne(s: State, i: nat, script: Script) returns (labels: seq<Label>, t: State)
    requires WellFormed(s) && i < |s.eps| && s.eps[i].thread.Handling? && s.pubs[i].Idle? && ScriptOk(script, i, |s.eps|)
    ensures Works(s, labels, t, i, script(s.eps[i].thread.msg)) && t.pubs[i].Idle?
    ensures t.eps[i] == s.eps[i].(thread := Scan(0), handled := s.eps[i].handled + [s.eps[i].thread.msg])
  {
    var ds := script(s.eps[i].thread.msg);
    var first, m := DeliverEach(s, i, ds);
    var e := s.eps[i].(thread := Scan(0), handled := s.eps[i].handled + [s.eps[i].thread.msg]);
    ThreadGoes(m, i, e);
    t := m.(eps := m.eps[i := e]);
    WorksBoth(s, first, m, [ThreadStep(i)], t, i, ds, []);
    labels := first + [ThreadStep(i)];
    assert ds + [] == ds;
  }

  function Backlog(e: Endpoint): seq<Msg>
    requires |e.queues| == 3
  {
    e.queues[0] + e.queues[1] + e.queues[2]
  }

  lemma FirstQueued(e: Endpoint) returns (p: nat)
    requires |e.queues| == 3 && Backlog(e) != []
    ensures p < 3 && e.queues[p] != [] && (forall q :: 0 <= q < p ==> e.queues[q] == [])
    ensures Backlog(e) == [e.queues[p][0]] + Backlog(Pop(e, p))
  {
    p := if e.queues[0] != [] then 0 else if e.queues[1] != [] then 1 else 2;
    assert e.queues[p] == [e.queues[p][0]] + e.queues[p][1..];
  }

  /** A scanning thread works off everything queued, higher priorities first and each queue in order. */
  lemma {:induction false} DrainScan(s: State, i: nat, script: Script) returns (labels: seq<Label>, t: State)
    requires WellFormed(s) && i < |s.eps| && s.pubs[i].Idle? && s.eps[i].thread == Scan(0) && ScriptOk(script, i, |s.eps|)
    ensures Works(s, labels, t, i, Scripted(script, Backlog(s.eps[i]))) && t.pubs[i].Idle?
    ensures t.eps[i] == Drained(s.eps[i])
    decreases |Backlog(s.eps[i])|
  {
    var e, all := s.eps[i], Backlog(s.eps[i]);
    if all == [] {
      labels := FindNothing(s, i);
      t := s.(eps := s.eps[i := e.(thread := LoopHead)]);
      assert e.queues == [[], [], []] && e.handled + e.queues[0] + e.queues[1] + e.queues[2] == e.handled;
    } else {
      var p := FirstQueued(e);
      var x := e.queues[p][0];
      var taken := TakeFirst(s, i, p);
      var m := s.(eps := s.eps[i := Pop(e, p).(thread := Handling(x))]);
      var handled, n := HandleOne(m, i, script);
      var rest;
      rest, t := DrainScan(n, i, script);
      assert all[0] == x && all[1..] == Backlog(n.eps[i]);
      WorksBoth(s, taken, m, handled, n, i, [], script(x));
      assert [] + script(x) == script(x);
      WorksBoth(s, taken + handled, n, rest, t, i, script(x), Scripted(script, all[1..]));
      labels := taken + handled + rest;
      DrainedStep(e, p);
    }
  }

  lemma DrainedStep(e: Endpoint, p: nat)
    requires |e.queues| == 3 && p < 3 && e.queues[p] != [] && forall q :: 0 <= q < p ==> e.queues[q] == []
    ensures Drained(Pop(e, p).(thread := Scan(0), handled := e.handled + [e.queues[p][0]])) == Drained(e)
  {
    var f := Pop(e, p).(thread := Scan(0), handled := e.handled + [e.queues[p][0]]);
    assert e.queues[p] == [e.queues[p][0]] + e.queues[p][1..];
    assert Drained(f).handled == Drained(e).handled;
  }

  /** Leftovers are served without a new post: a thread that starts, or that waits, with messages queued and no
      publisher about to post, works off all of them by its own steps, whatever its sub-functions publish, as
      long as that is not HIGH and not to its own endpoint. */
  lemma LeftoversDrained(s: State, i: nat, script: Script) returns (labels: seq<Label>, t: State)
    requires Reachable(s) && i < |s.eps| && |s.eps[i].queues| == 3 && ScriptOk(script, i, |s.eps|)
    requires !s.shutdown && (s.eps[i].thread.LoopHead? || s.eps[i].thread.Waiting?)
    requires Queued(s.eps[i], 3) && !PostPending(s, i)
    ensures s.eps[i].sem > 0
    ensures Works(s, labels, t, i, Scripted(script, Backlog(s.eps[i])))
    ensures t.eps[i] == Drained(s.eps[i].(sem := s.eps[i].sem - 1))
  {
    ReachableInv(s);
    assert EndpointInv(s, i);
    var e := s.eps[i];
    var awake := e.(sem := e.sem - 1, thread := Woken);
    var scanning := e.(sem := e.sem - 1, thread := Scan(0));
    var entered := EnterWait(s, i);
    var m := s.(eps := s.eps[i := e.(thread := Waiting)]);
    ThreadGoes(m, i, awake.(taken := e.taken));
    var w := m.(eps := m.eps[i := awake]);
    ThreadGoes(w, i, scanning);
    var n := w.(eps := w.eps[i := scanning]);
    var rest;
    rest, t := DrainScan(n, i, script);
    WorksBoth(s, entered, m, [ThreadStep(i)], w, i, [], []);
    WorksBoth(s, entered + [ThreadStep(i)], w, [ThreadStep(i)], n, i, [], []);
    var ds := Scripted(script, Backlog(e));
    WorksBoth(s, entered + [ThreadStep(i)] + [ThreadStep(i)], n, rest, t, i, [], ds);
    labels := entered + [ThreadStep(i)] + [ThreadStep(i)] + rest;
    assert [] + ds == ds;
  }

  lemma EnterWait(s: State, i: nat) returns (labels: seq<Label>)
    requires Inv(s) && i < |s.eps| && s.running && (s.eps[i].thread.LoopHead? || s.eps[i].thread.Waiting?)
    ensures Works(s, labels, s.(eps := s.eps[i := s.eps[i].(thread := Waiting)]), i, [])
  {
    if s.eps[i].thread.LoopHead? {
      ThreadGoes(s, i, s.eps[i].(thread := Waiting));
      labels := [ThreadStep(i)];
    } else {
      labels := [];
      assert s.eps[i := s.eps[i].(thread := Waiting)] == s.eps;
    }
  }
}
