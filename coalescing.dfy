/**
 The mutation-coalescing protocol of `Service`, as functions on the whole
 state of one store.

 Every property write through the intercepting proxy queues a deferred
 callback that carries a ticket: the value of `queueSequence` at the write,
 which is then incremented. Deferred callbacks run first-in first-out; only
 the one holding ticket 0 dispatches, i.e. calls every updater with the live
 context, and dispatching resets `queueSequence` to 0. The host's microtask
 queue is the sequence `pending` of tickets still to run.
 */
module Coalescing {

  /** Updaters are known by identity only. */
  type Listener = nat

  /**
   The object behind the proxy: its properties, the ones whose assignment
   throws (non-writable), which of those are also non-configurable (as after
   `Object.freeze`), and whether new properties may be added.
   */
  datatype Target<V> = Target(
    props: map<string, V>,
    readOnly: set<string>,
    nonConfigurable: set<string>,
    extensible: bool)

  /** The `{}` a store starts with. */
  function PlainObject<V>(): Target<V> {
    Target(map[], {}, {}, true)
  }

  /** Whether `target[key] = value` succeeds rather than throws. */
  predicate Accepts<V>(t: Target<V>, key: string) {
    key !in t.readOnly && (key in t.props || t.extensible)
  }

  /** An assignment; one that throws leaves the object as it was. */
  function Assign<V>(t: Target<V>, key: string, value: V): Target<V> {
    if Accepts(t, key) then t.(props := t.props[key := value]) else t
  }

  /**
   An assignment touches the property `key` only: an accepted one makes it
   hold `value`, a rejected one leaves the object exactly as it was, and the
   object's shape (which keys are writable, configurable, addable) stays.
   */
  lemma AssignEffect<V>(t: Target<V>, key: string, value: V)
    ensures var u := Assign(t, key, value);
      && u.readOnly == t.readOnly && u.nonConfigurable == t.nonConfigurable && u.extensible == t.extensible
      && (forall k :: k != key ==> (k in u.props <==> k in t.props))
      && (forall k :: k != key && k in t.props ==> u.props[k] == t.props[k])
      && (Accepts(t, key) ==> key in u.props && u.props[key] == value)
      && (!Accepts(t, key) ==> u == t)
      && (key in t.props && key !in t.readOnly ==> Accepts(t, key))
      && (key in t.readOnly ==> !Accepts(t, key))
      && (key !in t.props ==> (Accepts(t, key) <==> key !in t.readOnly && t.extensible))
  {
  }

  /**
   The proxy's own invariant check on `[[Set]]` (section 10.5.9 of ECMA-262):
   when the trap reports success although the property is non-writable and
   non-configurable and holds a different value, the writer gets a TypeError.
   */
  predicate Refuses<V(==)>(t: Target<V>, key: string, value: V) {
    key in t.readOnly && key in t.nonConfigurable && key in t.props && t.props[key] != value
  }

  datatype Assignment<V> = Assignment(key: string, value: V)

  function AssignAll<V>(t: Target<V>, ws: seq<Assignment<V>>): Target<V>
    decreases |ws|
  {
    if ws == [] then t else AssignAll(Assign(t, ws[0].key, ws[0].value), ws[1..])
  }

  /** One call of an updater, with the context as the updater saw it. */
  datatype Delivery<V> = Delivery(listener: Listener, seen: map<string, V>)

  /**
   A store: the object behind `contextProxy`, whether `contextProxy` is an
   intercepting proxy yet, the updaters in insertion order, the sequence
   counter, the tickets of the deferred callbacks not yet run, and the log
   of every updater call so far.
   */
  datatype State<V> = State(
    target: Target<V>,
    intercepted: bool,
    updaters: seq<Listener>,
    queueSequence: int,
    pending: seq<int>,
    log: seq<Delivery<V>>)

  /**
   What one updater call does: the property writes it makes through the live
   proxy, and whether it then throws.
   */
  datatype Reaction<V> = Reaction(writes: seq<Assignment<V>>, throws: bool)

  /** The behaviour of every updater, given the context it is shown. */
  type Reactions<!V> = (Listener, map<string, V>) -> Reaction<V>

  predicate Distinct(ls: seq<Listener>) {
    forall i, j :: 0 <= i < j < |ls| ==> ls[i] != ls[j]
  }

  /**
   At most one dispatching callback (ticket 0) is ever pending, and while it
   is pending the counter is positive, so no later write can obtain a second 0.
   */
  predicate Coalesced<V>(s: State<V>) {
    && s.queueSequence >= 0
    && (0 in s.pending <==> s.queueSequence >= 1)
    && (forall i, j :: 0 <= i < j < |s.pending| ==> s.pending[i] != 0 || s.pending[j] != 0)
  }

  /** The invariant every reachable store keeps. */
  predicate Consistent<V>(s: State<V>) {
    && Distinct(s.updaters)
    && Coalesced(s)
    && (!s.intercepted ==>
          s.pending == [] && s.queueSequence == 0 && s.target.readOnly == {} && s.target.extensible)
  }

  /** A freshly constructed `Service`. */
  function Initial<V>(): (s: State<V>)
    ensures Consistent(s) && s.updaters == [] && s.pending == [] && s.log == []
  {
    State(PlainObject(), false, [], 0, [], [])
  }

  /** The tickets `from`, `from + 1`, ..., `from + n - 1`. */
  function Tickets(from: int, n: nat): seq<int>
    decreases n
  {
    if n == 0 then [] else [from] + Tickets(from + 1, n - 1)
  }

  /**
   A property write through `context`. Through the proxy it first queues a
   callback with the current counter as ticket and increments the counter,
   then attempts the assignment; a rejected assignment is swallowed. Before
   any context has been installed the object is a plain `{}` and nothing is
   queued.
   */
  function Write<V>(s: State<V>, key: string, value: V): State<V> {
    if s.intercepted then
      s.(target := Assign(s.target, key, value),
         queueSequence := s.queueSequence + 1,
         pending := s.pending + [s.queueSequence])
    else
      s.(target := Assign(s.target, key, value))
  }

  function WriteAll<V>(s: State<V>, ws: seq<Assignment<V>>): State<V>
    decreases |ws|
  {
    if ws == [] then s else WriteAll(Write(s, ws[0].key, ws[0].value), ws[1..])
  }

  /**
   A write the proxy's invariant check refuses still queues its callback and
   leaves the object as it was: the trap ran to the end before the check.
   */
  lemma RefusedWriteStillQueues<V>(s: State<V>, key: string, value: V)
    requires s.intercepted && Refuses(s.target, key, value)
    ensures Write(s, key, value).target == s.target
    ensures Write(s, key, value).pending == s.pending + [s.queueSequence]
    ensures Write(s, key, value).queueSequence == s.queueSequence + 1
  {
  }

  /** The `context` setter: a new proxy around `value`; counter and queue are untouched. */
  function SetContext<V>(s: State<V>, value: Target<V>): (t: State<V>)
    ensures Consistent(s) ==> Consistent(t)
    ensures t.intercepted && t.target == value
    ensures t.updaters == s.updaters && t.queueSequence == s.queueSequence && t.pending == s.pending
  {
    s.(target := value, intercepted := true)
  }

  /** `updaters.add`: a set keeps one entry per updater, in insertion order. */
  function Subscribe<V>(s: State<V>, l: Listener): (t: State<V>)
    ensures Consistent(s) ==> Consistent(t)
    ensures forall x :: x in t.updaters <==> x == l || x in s.updaters
    ensures l in s.updaters ==> t == s
    ensures l !in s.updaters ==> t.updaters == s.updaters + [l]
  {
    if l in s.updaters then s else s.(updaters := s.updaters + [l])
  }

  /** The updaters without `l`, the others in their order. */
  function Without(ls: seq<Listener>, l: Listener): (r: seq<Listener>)
    ensures forall x :: x in r <==> x in ls && x != l
    ensures Distinct(ls) ==> Distinct(r)
    ensures l !in ls ==> r == ls
    decreases |ls|
  {
    if ls == [] then []
    else if ls[0] == l then Without(ls[1..], l)
    else
      assert Distinct(ls) ==> ls[0] !in ls[1..];
      [ls[0]] + Without(ls[1..], l)
  }

  /** On a list without duplicates, removing `l` cuts out its one position. */
  lemma {:induction false} WithoutAt(ls: seq<Listener>, l: Listener, k: nat)
    requires Distinct(ls) && k < |ls| && ls[k] == l
    ensures Without(ls, l) == ls[..k] + ls[k + 1..]
    decreases k
  {
    if k == 0 {
      assert l !in ls[1..];
      assert ls[..0] + ls[1..] == ls[1..];
    } else {
      WithoutAt(ls[1..], l, k - 1);
      assert ls[..k] + ls[k + 1..] == [ls[0]] + (ls[1..][..k - 1] + ls[1..][k..]);
    }
  }

  /** `updaters.delete`. */
  function Unsubscribe<V>(s: State<V>, l: Listener): (t: State<V>)
    ensures Consistent(s) ==> Consistent(t)
  {
    s.(updaters := Without(s.updaters, l))
  }

  /**
   One updater call: it sees the live context, then makes its writes through
   the proxy. An updater that throws is isolated here: the call is abandoned
   and dispatching carries on (see `DeliverEachAsWritten` for the source).
   */
  function Deliver<V>(s: State<V>, l: Listener, r: Reactions<V>): State<V> {
    var seen := s.target.props;
    WriteAll(s.(log := s.log + [Delivery(l, seen)]), r(l, seen).writes)
  }

  /** The `forEach` over the updaters. */
  function DeliverEach<V>(s: State<V>, ls: seq<Listener>, r: Reactions<V>): State<V>
    decreases |ls|
  {
    if ls == [] then s else DeliverEach(Deliver(s, ls[0], r), ls[1..], r)
  }

  /** `dispatchUpdater`: call every updater, then reset the counter. */
  function Dispatch<V>(s: State<V>, r: Reactions<V>): State<V> {
    DeliverEach(s, s.updaters, r).(queueSequence := 0)
  }

  /** The host runs the oldest deferred callback; only ticket 0 dispatches. */
  function RunNext<V>(s: State<V>, r: Reactions<V>): State<V> {
    if s.pending == [] then s
    else if s.pending[0] == 0 then Dispatch(s.(pending := s.pending[1..]), r)
    else s.(pending := s.pending[1..])
  }

  /** The host runs deferred callbacks until none is left. */
  function Drain<V>(s: State<V>, r: Reactions<V>): (d: State<V>)
    requires Consistent(s)
    ensures Consistent(d) && d.pending == []
    ensures d.intercepted == s.intercepted && d.updaters == s.updaters
    decreases if 0 in s.pending then 1 else 0, |s.pending|
  {
    if s.pending == [] then s
    else
      RunNextKeepsConsistent(s, r);
      Drain(RunNext(s, r), r)
  }

  /**
   A write keeps the invariant: it queues ticket 0 only when the counter is 0,
   that is when no ticket 0 is queued, and leaves the counter positive.
   */
  lemma WriteKeepsConsistent<V>(s: State<V>, key: string, value: V)
    requires Consistent(s)
    ensures Consistent(Write(s, key, value))
  {
    var t := Write(s, key, value);
    if s.intercepted {
      assert t.pending == s.pending + [s.queueSequence];
      assert s.queueSequence == 0 ==> 0 !in s.pending;
      assert s.queueSequence >= 1 ==> 0 in s.pending;
    }
  }

  lemma {:induction false} WriteAllKeepsConsistent<V>(s: State<V>, ws: seq<Assignment<V>>)
    requires Consistent(s)
    ensures Consistent(WriteAll(s, ws))
    decreases |ws|
  {
    if ws != [] {
      WriteKeepsConsistent(s, ws[0].key, ws[0].value);
      WriteAllKeepsConsistent(Write(s, ws[0].key, ws[0].value), ws[1..]);
    }
  }

  /** A run of writes changes neither the updaters nor the log, and applies its assignments. */
  lemma {:induction false} WriteAllFrame<V>(s: State<V>, ws: seq<Assignment<V>>)
    ensures var t := WriteAll(s, ws);
      && t.updaters == s.updaters && t.intercepted == s.intercepted && t.log == s.log
      && t.target == AssignAll(s.target, ws)
    decreases |ws|
  {
    if ws != [] {
      WriteAllFrame(Write(s, ws[0].key, ws[0].value), ws[1..]);
    }
  }

  /** Before interception, writes queue nothing. */
  lemma {:induction false} WriteAllPlain<V>(s: State<V>, ws: seq<Assignment<V>>)
    requires !s.intercepted
    ensures WriteAll(s, ws).queueSequence == s.queueSequence
    ensures WriteAll(s, ws).pending == s.pending
    decreases |ws|
  {
    if ws != [] {
      WriteAllPlain(Write(s, ws[0].key, ws[0].value), ws[1..]);
    }
  }

  /** Through the proxy each write adds one ticket, numbered on from the counter. */
  lemma {:induction false} WriteAllTickets<V>(s: State<V>, ws: seq<Assignment<V>>)
    requires s.intercepted
    ensures WriteAll(s, ws).queueSequence == s.queueSequence + |ws|
    ensures WriteAll(s, ws).pending == s.pending + Tickets(s.queueSequence, |ws|)
    decreases |ws|
  {
    if ws != [] {
      var c := s.queueSequence;
      var p := s.pending;
      var u := Write(s, ws[0].key, ws[0].value);
      WriteAllTickets(u, ws[1..]);
      var rest := Tickets(c + 1, |ws| - 1);
      assert u.pending == p + [c];
      assert Tickets(c, |ws|) == [c] + rest;
      assert (p + [c]) + rest == p + ([c] + rest);
    }
  }

  /**
   A run of writes changes neither the updaters nor the log; through the
   proxy each write adds one ticket, numbered on from the counter.
   */
  lemma WriteAllEffect<V>(s: State<V>, ws: seq<Assignment<V>>)
    ensures var t := WriteAll(s, ws);
      && t.updaters == s.updaters && t.intercepted == s.intercepted && t.log == s.log
      && t.target == AssignAll(s.target, ws)
      && t.queueSequence == s.queueSequence + (if s.intercepted then |ws| else 0)
      && t.pending == s.pending + (if s.intercepted then Tickets(s.queueSequence, |ws|) else [])
  {
    WriteAllFrame(s, ws);
    if s.intercepted {
      WriteAllTickets(s, ws);
    } else {
      WriteAllPlain(s, ws);
    }
  }

  /** The tickets `Tickets(c, n)` are c, c+1, ..., c+n-1. */
  lemma {:induction false} TicketsAt(c: int, n: nat)
    ensures |Tickets(c, n)| == n
    ensures forall i :: 0 <= i < n ==> Tickets(c, n)[i] == c + i
    decreases n
  {
    if n > 0 {
      TicketsAt(c + 1, n - 1);
    }
  }

  /** `q` is `p` followed by tickets no smaller than `c`. */
  predicate AppendsFrom(p: seq<int>, q: seq<int>, c: int) {
    |p| <= |q| && q[..|p|] == p && forall i :: |p| <= i < |q| ==> q[i] >= c
  }

  lemma AppendsFromTrans(p: seq<int>, q: seq<int>, w: seq<int>, c: int, c': int)
    requires AppendsFrom(p, q, c) && AppendsFrom(q, w, c') && c' >= c
    ensures AppendsFrom(p, w, c)
  {
    assert w[..|p|] == w[..|q|][..|p|];
    forall i | |p| <= i < |w| ensures w[i] >= c {
      if i < |q| {
        assert w[i] == w[..|q|][i] == q[i];
      }
    }
  }

  /** Calling updaters changes neither the updaters nor the interception. */
  lemma {:induction false} DeliverEachFrame<V>(s: State<V>, ls: seq<Listener>, r: Reactions<V>)
    ensures DeliverEach(s, ls, r).updaters == s.updaters
    ensures DeliverEach(s, ls, r).intercepted == s.intercepted
    decreases |ls|
  {
    if ls != [] {
      var seen := s.target.props;
      WriteAllFrame(s.(log := s.log + [Delivery(ls[0], seen)]), r(ls[0], seen).writes);
      DeliverEachFrame(Deliver(s, ls[0], r), ls[1..], r);
    }
  }

  /** Writes the updaters make only append tickets no smaller than the counter. */
  lemma {:induction false} DeliverEachTickets<V>(s: State<V>, ls: seq<Listener>, r: Reactions<V>)
    ensures DeliverEach(s, ls, r).queueSequence >= s.queueSequence
    ensures AppendsFrom(s.pending, DeliverEach(s, ls, r).pending, s.queueSequence)
    decreases |ls|
  {
    if ls != [] {
      var seen := s.target.props;
      var ws := r(ls[0], seen).writes;
      var d := Deliver(s, ls[0], r);
      WriteAllEffect(s.(log := s.log + [Delivery(ls[0], seen)]), ws);
      TicketsAt(s.queueSequence, |ws|);
      assert d.pending[..|s.pending|] == s.pending;
      assert AppendsFrom(s.pending, d.pending, s.queueSequence);
      DeliverEachTickets(d, ls[1..], r);
      AppendsFromTrans(s.pending, d.pending, DeliverEach(d, ls[1..], r).pending, s.queueSequence, d.queueSequence);
    }
  }

  /**
   Calling the updaters `ls` in turn logs exactly one delivery per updater, in
   order, the first one seeing the context as it was.
   */
  lemma {:induction false} DeliverEachLog<V>(s: State<V>, ls: seq<Listener>, r: Reactions<V>)
    ensures var t := DeliverEach(s, ls, r);
      && |t.log| == |s.log| + |ls| && t.log[..|s.log|] == s.log
      && (forall i :: 0 <= i < |ls| ==> t.log[|s.log| + i].listener == ls[i])
      && (ls != [] ==> t.log[|s.log|].seen == s.target.props)
    decreases |ls|
  {
    if ls != [] {
      var seen := s.target.props;
      WriteAllFrame(s.(log := s.log + [Delivery(ls[0], seen)]), r(ls[0], seen).writes);
      var d := Deliver(s, ls[0], r);
      assert d.log == s.log + [Delivery(ls[0], seen)];
      DeliverEachLog(d, ls[1..], r);
      var t := DeliverEach(d, ls[1..], r);
      assert t.log[..|d.log|] == d.log;
      assert t.log[..|s.log|] == t.log[..|d.log|][..|s.log|];
      assert t.log[|s.log|] == t.log[..|d.log|][|s.log|];
      forall i | 0 <= i < |ls| ensures t.log[|s.log| + i].listener == ls[i] {
        if i > 0 {
          assert |s.log| + i == |d.log| + (i - 1);
          assert ls[i] == ls[1..][i - 1];
        }
      }
    }
  }

  /**
   Calling the updaters `ls` in turn logs exactly one delivery per updater, in
   order, the first one seeing the context as it was; writes the updaters make
   meanwhile only append tickets no smaller than the counter.
   */
  lemma DeliverEachEffect<V>(s: State<V>, ls: seq<Listener>, r: Reactions<V>)
    ensures var t := DeliverEach(s, ls, r);
      && t.updaters == s.updaters && t.intercepted == s.intercepted
      && t.queueSequence >= s.queueSequence
      && |t.pending| >= |s.pending| && t.pending[..|s.pending|] == s.pending
      && (forall i :: |s.pending| <= i < |t.pending| ==> t.pending[i] >= s.queueSequence)
      && |t.log| == |s.log| + |ls| && t.log[..|s.log|] == s.log
      && (forall i :: 0 <= i < |ls| ==> t.log[|s.log| + i].listener == ls[i])
      && (ls != [] ==> t.log[|s.log|].seen == s.target.props)
  {
    DeliverEachFrame(s, ls, r);
    DeliverEachTickets(s, ls, r);
    DeliverEachLog(s, ls, r);
  }

  /** With updaters that write nothing, every updater sees the same, unchanged, context. */
  lemma {:induction false} DeliverEachQuiet<V>(s: State<V>, ls: seq<Listener>, r: Reactions<V>)
    requires forall l, m :: r(l, m).writes == []  // updaters that write nothing back
    ensures var t := DeliverEach(s, ls, r);
      && t.target == s.target
      && |t.log| == |s.log| + |ls|
      && (forall i :: |s.log| <= i < |t.log| ==> t.log[i].seen == s.target.props)
    decreases |ls|
  {
    if ls != [] {
      var seen := s.target.props;
      var d := Deliver(s, ls[0], r);
      assert r(ls[0], seen).writes == [];
      assert d == s.(log := s.log + [Delivery(ls[0], seen)]);
      DeliverEachQuiet(d, ls[1..], r);
      DeliverEachEffect(d, ls[1..], r);
      var t := DeliverEach(d, ls[1..], r);
      assert t.log[|s.log|] == t.log[..|d.log|][|s.log|] == d.log[|s.log|];
    }
  }

  /**
   Running one deferred callback keeps the invariant; after ticket 0 has run
   no dispatching callback is left, and any other ticket only leaves the queue.
   */
  lemma RunNextKeepsConsistent<V>(s: State<V>, r: Reactions<V>)
    requires Consistent(s) && s.pending != []
    ensures Consistent(RunNext(s, r))
    ensures RunNext(s, r).intercepted == s.intercepted && RunNext(s, r).updaters == s.updaters
    ensures s.pending[0] == 0 ==> 0 in s.pending && 0 !in RunNext(s, r).pending
    ensures s.pending[0] != 0 ==> RunNext(s, r) == s.(pending := s.pending[1..])
    ensures s.pending[0] != 0 && 0 in RunNext(s, r).pending ==> 0 in s.pending
  {
    var u := s.(pending := s.pending[1..]);
    if s.pending[0] == 0 {
      forall i | 0 <= i < |u.pending| ensures u.pending[i] != 0 {
        assert u.pending[i] == s.pending[i + 1];
      }
      DeliverEachEffect(u, u.updaters, r);
      var t := DeliverEach(u, u.updaters, r);
      forall i | 0 <= i < |t.pending| ensures t.pending[i] != 0 {
        if i < |u.pending| {
          assert t.pending[i] == t.pending[..|u.pending|][i] == u.pending[i];
        }
      }
      assert RunNext(s, r) == t.(queueSequence := 0);
    } else if 0 in u.pending {
      var i :| 0 <= i < |u.pending| && u.pending[i] == 0;
      assert s.pending[i + 1] == 0;
    }
  }

  /** Callbacks whose tickets are all non-zero only leave the queue. */
  lemma {:induction false} DrainNonZero<V>(s: State<V>, r: Reactions<V>)
    requires Consistent(s) && 0 !in s.pending
    ensures Drain(s, r) == s.(pending := [])
    decreases |s.pending|
  {
    if s.pending != [] {
      RunNextKeepsConsistent(s, r);
      var u := s.(pending := s.pending[1..]);
      assert RunNext(s, r) == u;
      assert 0 !in u.pending by {
        forall i | 0 <= i < |u.pending| ensures u.pending[i] != 0 {
          assert u.pending[i] == s.pending[i + 1];
        }
      }
      DrainNonZero(u, r);
    }
  }

  /** Running the callbacks after a dispatching one only empties the queue. */
  lemma DrainAfterDispatch<V>(s: State<V>, r: Reactions<V>)
    requires Consistent(s) && s.pending != [] && s.pending[0] == 0
    ensures Drain(s, r) == RunNext(s, r).(pending := [])
  {
    RunNextKeepsConsistent(s, r);
    DrainNonZero(RunNext(s, r), r);
  }

  /** When ticket 0 is next, draining the queue is one dispatch over the updaters. */
  lemma DrainFromDispatch<V>(s: State<V>, r: Reactions<V>)
    requires Consistent(s) && s.pending != [] && s.pending[0] == 0
    ensures Drain(s, r)
         == DeliverEach(s.(pending := s.pending[1..]), s.updaters, r).(queueSequence := 0, pending := [])
  {
    DrainAfterDispatch(s, r);
  }

  /**
   When ticket 0 is next, the drain calls every updater once, in order, the
   first one seeing the context as it is now, and leaves the counter at 0.
   */
  lemma DrainFromDispatchLog<V>(s: State<V>, r: Reactions<V>)
    requires Consistent(s) && s.pending != [] && s.pending[0] == 0
    ensures var d := Drain(s, r);
      && d.queueSequence == 0
      && |d.log| == |s.log| + |s.updaters| && d.log[..|s.log|] == s.log
      && (forall i :: 0 <= i < |s.updaters| ==> d.log[|s.log| + i].listener == s.updaters[i])
      && (s.updaters != [] ==> d.log[|s.log|].seen == s.target.props)
  {
    DrainFromDispatch(s, r);
    DeliverEachLog(s.(pending := s.pending[1..]), s.updaters, r);
  }

  /**
   From a settled store (proxy installed, counter 0, nothing queued), N >= 1
   synchronous writes queue exactly the tickets 0..N-1, leave the counter at N
   and deliver nothing yet.
   */
  lemma BatchQueuesTickets<V>(s: State<V>, ws: seq<Assignment<V>>)
    requires Consistent(s) && s.intercepted && s.queueSequence == 0 && s.pending == []
    ensures var b := WriteAll(s, ws);
      && b.target == AssignAll(s.target, ws)
      && b.pending == Tickets(0, |ws|) && b.queueSequence == |ws|
      && b.log == s.log && b.updaters == s.updaters
  {
    WriteAllEffect(s, ws);
  }

  /**
   The coalescing guarantee. After N >= 1 synchronous writes to a settled
   store, running every deferred callback performs exactly one dispatch: one
   delivery per updater, in order, the first one seeing the context after all
   N writes, even when updaters write back meanwhile. The store ends settled.
   */
  lemma BatchDispatchesOnce<V>(s: State<V>, ws: seq<Assignment<V>>, r: Reactions<V>)
    requires Consistent(s) && s.intercepted && s.queueSequence == 0 && s.pending == []
    requires |ws| >= 1
    ensures Consistent(WriteAll(s, ws))
    ensures var d := Drain(WriteAll(s, ws), r);
      && d.pending == [] && d.queueSequence == 0 && d.updaters == s.updaters
      && |d.log| == |s.log| + |s.updaters| && d.log[..|s.log|] == s.log
      && (forall i :: 0 <= i < |s.updaters| ==> d.log[|s.log| + i].listener == s.updaters[i])
      && (s.updaters != [] ==> d.log[|s.log|].seen == AssignAll(s.target, ws).props)
  {
    var b := WriteAll(s, ws);
    BatchQueuesTickets(s, ws);
    WriteAllKeepsConsistent(s, ws);
    assert b.pending[0] == Tickets(0, |ws|)[0] == 0;
    DrainFromDispatchLog(b, r);
  }

  /**
   Once the queue has drained the counter is back at 0, so the next write
   through the proxy gets ticket 0 and opens a new batch.
   */
  lemma NextWriteOpensBatch<V>(s: State<V>, r: Reactions<V>, key: string, value: V)
    requires Consistent(s) && s.intercepted
    ensures Drain(s, r).queueSequence == 0
    ensures Write(Drain(s, r), key, value).pending == [0]
  {
  }

  /**
   With updaters that write nothing back, that single dispatch shows every
   updater the context after all N writes, and the context stays as the
   writes left it.
   */
  lemma BatchQuietDispatch<V>(s: State<V>, ws: seq<Assignment<V>>, r: Reactions<V>)
    requires Consistent(s) && s.intercepted && s.queueSequence == 0 && s.pending == []
    requires |ws| >= 1
    requires forall l, m :: r(l, m).writes == []  // updaters that write nothing back
    ensures Consistent(WriteAll(s, ws))
    ensures var d := Drain(WriteAll(s, ws), r);
      && d.target == AssignAll(s.target, ws)
      && |d.log| == |s.log| + |s.updaters|
      && (forall i :: |s.log| <= i < |d.log| ==> d.log[i].seen == AssignAll(s.target, ws).props)
  {
    var b := WriteAll(s, ws);
    WriteAllEffect(s, ws);
    WriteAllKeepsConsistent(s, ws);
    BatchDispatchesOnce(s, ws, r);
    var u := b.(pending := b.pending[1..]);
    DeliverEachQuiet(u, u.updaters, r);
    DeliverEachEffect(u, u.updaters, r);
    RunNextKeepsConsistent(b, r);
    var c := RunNext(b, r);
    assert c == DeliverEach(u, u.updaters, r).(queueSequence := 0);
    DrainNonZero(c, r);
  }

  /**
   A write an updater makes during a dispatch gets a non-zero ticket, so it
   never schedules a dispatch of its own: after the dispatch no dispatching
   callback is queued, however many writes the updaters made.
   */
  lemma DispatchWritesNeverDispatch<V>(s: State<V>, r: Reactions<V>)
    requires Consistent(s) && s.pending != [] && s.pending[0] == 0
    ensures var t := RunNext(s, r);
      && t.queueSequence == 0 && 0 !in t.pending
      && |t.log| == |s.log| + |s.updaters|
  {
    RunNextKeepsConsistent(s, r);
    DeliverEachEffect(s.(pending := s.pending[1..]), s.updaters, r);
  }

  /**
   Subscribing is idempotent, so with the invariant each registered updater
   is called exactly once per dispatch and nothing else is called.
   */
  lemma DispatchCallsEachUpdaterOnce<V>(s: State<V>, r: Reactions<V>)
    requires Consistent(s)
    ensures var t := Dispatch(s, r);
      && (forall i, j :: |s.log| <= i < j < |t.log| ==> t.log[i].listener != t.log[j].listener)
      && (forall l :: l in s.updaters <==> exists i :: |s.log| <= i < |t.log| && t.log[i].listener == l)
  {
    DeliverEachEffect(s, s.updaters, r);
    var t := Dispatch(s, r);
    forall l | l in s.updaters ensures exists i :: |s.log| <= i < |t.log| && t.log[i].listener == l {
      var k :| 0 <= k < |s.updaters| && s.updaters[k] == l;
      assert t.log[|s.log| + k].listener == l;
    }
    forall i, j | |s.log| <= i < j < |t.log| ensures t.log[i].listener != t.log[j].listener {
      assert t.log[|s.log| + (i - |s.log|)].listener == s.updaters[i - |s.log|];
      assert t.log[|s.log| + (j - |s.log|)].listener == s.updaters[j - |s.log|];
    }
    forall l | exists i :: |s.log| <= i < |t.log| && t.log[i].listener == l ensures l in s.updaters {
      var i :| |s.log| <= i < |t.log| && t.log[i].listener == l;
      assert t.log[|s.log| + (i - |s.log|)].listener == s.updaters[i - |s.log|];
    }
  }

  /** Subscribing twice has the effect of subscribing once. */
  lemma SubscribeIdempotent<V>(s: State<V>, l: Listener)
    ensures Subscribe(Subscribe(s, l), l) == Subscribe(s, l)
  {
  }

  /**
   Unsubscribing removes exactly the given updater, keeps the others in their
   order and touches nothing else; for an updater not registered it is a no-op.
   */
  lemma UnsubscribeRemovesOnly<V>(s: State<V>, l: Listener)
    requires Consistent(s)
    ensures var t := Unsubscribe(s, l);
      && (forall x :: x in t.updaters <==> x in s.updaters && x != l)
      && (l !in s.updaters ==> t == s)
      && (forall k :: 0 <= k < |s.updaters| && s.updaters[k] == l ==>
            t.updaters == s.updaters[..k] + s.updaters[k + 1..])
      && t.target == s.target && t.queueSequence == s.queueSequence
      && t.pending == s.pending && t.log == s.log
  {
    forall k | 0 <= k < |s.updaters| && s.updaters[k] == l
      ensures Without(s.updaters, l) == s.updaters[..k] + s.updaters[k + 1..]
    {
      WithoutAt(s.updaters, l, k);
    }
  }

  /** When ticket 0 is next, the drain calls no updater that is not registered. */
  lemma DrainSkipsAbsent<V>(s: State<V>, l: Listener, r: Reactions<V>)
    requires Consistent(s) && s.pending != [] && s.pending[0] == 0 && l !in s.updaters
    ensures var d := Drain(s, r);
      && |d.log| >= |s.log|
      && forall i :: |s.log| <= i < |d.log| ==> d.log[i].listener != l
  {
    DrainFromDispatchLog(s, r);
    var d := Drain(s, r);
    forall i | |s.log| <= i < |d.log| ensures d.log[i].listener != l {
      var k := i - |s.log|;
      assert d.log[|s.log| + k].listener == s.updaters[k];
      assert s.updaters[k] in s.updaters;
    }
  }

  /**
   An updater unsubscribed after a batch of writes but before the deferred
   dispatch runs is not called by that dispatch, nor by anything the drain runs.
   */
  lemma UnsubscribeBeforeDrain<V>(s: State<V>, ws: seq<Assignment<V>>, l: Listener, r: Reactions<V>)
    requires Consistent(s) && s.intercepted && s.queueSequence == 0 && s.pending == []
    requires |ws| >= 1
    ensures Consistent(Unsubscribe(WriteAll(s, ws), l))
    ensures var d := Drain(Unsubscribe(WriteAll(s, ws), l), r);
      && |d.log| >= |s.log|
      && forall i :: |s.log| <= i < |d.log| ==> d.log[i].listener != l
  {
    var b := WriteAll(s, ws);
    BatchQueuesTickets(s, ws);
    WriteAllKeepsConsistent(s, ws);
    var c := Unsubscribe(b, l);
    assert c.pending[0] == Tickets(0, |ws|)[0] == 0;
    DrainSkipsAbsent(c, l, r);
  }

  /*
   * `dispatchUpdater` as written. The `forEach` has no `try`: an updater that
   * throws ends the loop, the exception rejects the deferred callback's
   * promise, and the reset of `queueSequence` after the loop never runs.
   */

  /** The `forEach` as written; the flag says whether an updater threw. */
  function DeliverEachAsWritten<V>(s: State<V>, ls: seq<Listener>, r: Reactions<V>): (State<V>, bool)
    decreases |ls|
  {
    if ls == [] then (s, false)
    else
      var t := Deliver(s, ls[0], r);
      if r(ls[0], s.target.props).throws then (t, true) else DeliverEachAsWritten(t, ls[1..], r)
  }

  function DispatchAsWritten<V>(s: State<V>, r: Reactions<V>): State<V> {
    var (t, threw) := DeliverEachAsWritten(s, s.updaters, r);
    if threw then t else t.(queueSequence := 0)
  }

  function RunNextAsWritten<V>(s: State<V>, r: Reactions<V>): State<V> {
    if s.pending == [] then s
    else if s.pending[0] == 0 then DispatchAsWritten(s.(pending := s.pending[1..]), r)
    else s.(pending := s.pending[1..])
  }

  /**
   With updaters that never throw, the `forEach` as written runs to the end
   and has the effect of the isolating one.
   */
  lemma {:induction false} DeliverEachAsWrittenNoThrow<V>(s: State<V>, ls: seq<Listener>, r: Reactions<V>)
    requires forall l, m :: !r(l, m).throws  // updaters that never throw
    ensures DeliverEachAsWritten(s, ls, r) == (DeliverEach(s, ls, r), false)
    decreases |ls|
  {
    if ls != [] {
      assert !r(ls[0], s.target.props).throws;
      DeliverEachAsWrittenNoThrow(Deliver(s, ls[0], r), ls[1..], r);
    }
  }

  /**
   With updaters that never throw, a deferred callback as written does what
   the model's `RunNext` does, so every lemma about `RunNext` and `Drain`
   holds of the code as written for such updaters.
   */
  lemma RunNextAsWrittenNoThrow<V>(s: State<V>, r: Reactions<V>)
    requires forall l, m :: !r(l, m).throws  // updaters that never throw
    ensures RunNextAsWritten(s, r) == RunNext(s, r)
  {
    if s.pending != [] && s.pending[0] == 0 {
      var u := s.(pending := s.pending[1..]);
      DeliverEachAsWrittenNoThrow(u, u.updaters, r);
    }
  }

  /** A store whose counter was left positive with no dispatching callback queued. */
  predicate Stuck<V>(s: State<V>) {
    s.intercepted && s.queueSequence >= 1 && 0 !in s.pending
  }

  /**
   As written, a stuck store stays stuck and silent: every later write gets a
   non-zero ticket, and running any deferred callback calls no updater.
   */
  lemma StuckStoreStaysSilent<V>(s: State<V>, key: string, value: V, r: Reactions<V>)
    requires Stuck(s)
    ensures Stuck(Write(s, key, value))
    ensures Stuck(RunNextAsWritten(s, r)) && RunNextAsWritten(s, r).log == s.log
  {
    if s.pending != [] {
      assert s.pending[0] in s.pending;
      var u := RunNextAsWritten(s, r);
      assert u == s.(pending := s.pending[1..]);
    }
  }

  /**
   The input that shows it: one updater that throws (as `useService`'s
   updater does when `JSON.stringify` rejects its selection). The first
   write is dispatched, the store is then stuck, and the second write is
   never delivered although the context changed.
   */
  lemma ThrowingUpdaterSilencesStore()
    ensures var r: Reactions<int> := (l, m) => Reaction([], true);
      var s0 := State(Target(map[], {}, {}, true), true, [1], 0, [], []);
      var s1 := RunNextAsWritten(Write(s0, "x", 1), r);
      var s2 := RunNextAsWritten(Write(s1, "x", 2), r);
      && s1.log == [Delivery(1, map["x" := 1])] && Stuck(s1)
      && s2.pending == [] && s2.log == s1.log && s2.target.props == map["x" := 2]
  {
  }

  /**
   The intended behaviour, with each updater call isolated: the same input
   delivers the second write too, and the store ends settled.
   */
  lemma IsolatedUpdaterKeepsDelivering()
    ensures var r: Reactions<int> := (l, m) => Reaction([], true);
      var s0 := State(Target(map[], {}, {}, true), true, [1], 0, [], []);
      var s1 := RunNext(Write(s0, "x", 1), r);
      var s2 := RunNext(Write(s1, "x", 2), r);
      && s1.queueSequence == 0
      && s2.log == [Delivery(1, map["x" := 1]), Delivery(1, map["x" := 2])]
      && s2.queueSequence == 0 && s2.pending == []
  {
    var r: Reactions<int> := (l, m) => Reaction([], true);
    var s0 := State(Target(map[], {}, {}, true), true, [1], 0, [], []);
    var w1 := Write(s0, "x", 1);
    assert w1 == State(Target(map["x" := 1], {}, {}, true), true, [1], 1, [0], []);
    var s1 := RunNext(w1, r);
    assert Deliver(w1.(pending := []), 1, r) == w1.(pending := [], log := [Delivery(1, map["x" := 1])]);
    assert s1 == State(Target(map["x" := 1], {}, {}, true), true, [1], 0, [], [Delivery(1, map["x" := 1])]);
    var w2 := Write(s1, "x", 2);
    assert map["x" := 1]["x" := 2] == map["x" := 2];
    assert w2 == State(Target(map["x" := 2], {}, {}, true), true, [1], 1, [0], s1.log);
    assert r(1, map["x" := 2]).writes == [];
    assert Deliver(w2.(pending := []), 1, r) == w2.(pending := [], log := s1.log + [Delivery(1, map["x" := 2])]);
  }
}
