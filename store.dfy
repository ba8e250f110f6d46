/**
 The `Service` class: a store whose fields change in place. Each method is
 proved against the function of the `Coalescing` module that describes its
 effect on the whole state, so every lemma proved there holds of the class.
 */
module Store {
  import opened Coalescing

  class Service<V(==)> {
    /** The object behind `contextProxy`. */
    var target: Target<V>
    /** Whether `contextProxy` is an intercepting proxy (false until `context` is first assigned). */
    var intercepted: bool
    /** `updaters`, in the insertion order a JavaScript `Set` iterates in. */
    var updaters: seq<Listener>
    var queueSequence: int
    /** Tickets of the deferred callbacks queued and not yet run, oldest first. */
    var pending: seq<int>
    /** Every updater call so far, with the context it was shown. */
    ghost var log: seq<Delivery<V>>

    ghost function Abstract(): State<V>
      reads this
    {
      State(target, intercepted, updaters, queueSequence, pending, log)
    }

    ghost predicate Valid()
      reads this
    {
      Consistent(Abstract())
    }

    constructor ()
      ensures Valid() && Abstract() == Initial()
    {
      target := PlainObject();
      intercepted := false;
      updaters := [];
      queueSequence := 0;
      pending := [];
      log := [];
    }

    /** `getCurrentContext`: a copy of the current properties; nothing changes. */
    method GetCurrentContext() returns (snapshot: map<string, V>)
      ensures snapshot == target.props
    {
      snapshot := target.props;
    }

    /** The `context` setter: intercept writes to `value` from now on. */
    method SetContext(value: Target<V>)
      requires Valid()
      modifies this
      ensures Valid() && Abstract() == Coalescing.SetContext(old(Abstract()), value)
      ensures target == value && intercepted
      ensures updaters == old(updaters) && queueSequence == old(queueSequence) && pending == old(pending)
      ensures log == old(log)
    {
      target := value;
      intercepted := true;
    }

    method Subscribe(l: Listener)
      requires Valid()
      modifies this
      ensures Valid() && Abstract() == Coalescing.Subscribe(old(Abstract()), l)
      ensures forall x :: x in updaters <==> x == l || x in old(updaters)
      ensures l in old(updaters) ==> updaters == old(updaters)
      ensures unchanged(this`target, this`queueSequence, this`pending, this`intercepted) && log == old(log)
    {
      if l !in updaters {
        updaters := updaters + [l];
      }
    }

    method Unsubscribe(l: Listener)
      requires Valid()
      modifies this
      ensures Valid() && Abstract() == Coalescing.Unsubscribe(old(Abstract()), l)
      ensures forall x :: x in updaters <==> x in old(updaters) && x != l
      ensures l !in old(updaters) ==> updaters == old(updaters)
      ensures unchanged(this`target, this`queueSequence, this`pending, this`intercepted) && log == old(log)
    {
      updaters := Without(updaters, l);
    }

    /**
     `queueCommand`: take a ticket, advance the counter, defer the callback.
     Private in the source: only `Write` calls it, on a store that is `Valid()`.
     */
    method QueueCommand()
      modifies this`queueSequence, this`pending
      ensures pending == old(pending) + [old(queueSequence)]
      ensures queueSequence == old(queueSequence) + 1
    {
      var currentSequence := queueSequence;
      queueSequence := queueSequence + 1;
      pending := pending + [currentSequence];
    }

    /**
     `context[key] = value`. Through the proxy's `set` trap: queue a callback,
     then assign, swallowing a rejected assignment, and report success. The
     writer still gets a TypeError (`!ok`) when the proxy's invariant check
     refuses that success: a frozen property given a different value.
     */
    method Write(key: string, value: V) returns (ok: bool)
      modifies this
      ensures Abstract() == Coalescing.Write(old(Abstract()), key, value)
      ensures old(Valid()) ==> Valid()
      ensures ok <==> !(old(intercepted) && Refuses(old(target), key, value))
      ensures target == Assign(old(target), key, value)
      ensures old(intercepted) ==> pending == old(pending) + [old(queueSequence)]
                                   && queueSequence == old(queueSequence) + 1
      ensures !old(intercepted) ==> pending == old(pending) && queueSequence == old(queueSequence)
      ensures updaters == old(updaters) && intercepted == old(intercepted) && log == old(log)
    {
      if Valid() {
        WriteKeepsConsistent(Abstract(), key, value);
      }
      if intercepted {
        QueueCommand();
        var refused := Refuses(target, key, value);
        target := Assign(target, key, value);
        ok := !refused;
      } else {
        target := Assign(target, key, value);
        ok := true;
      }
    }

    /**
     The writes one updater makes through the live proxy. Not a method of the
     source: `DispatchUpdater` calls it for each updater.
     */
    method WriteEach(ws: seq<Assignment<V>>)
      modifies this
      ensures Abstract() == WriteAll(old(Abstract()), ws)
    {
      var i := 0;
      while i < |ws|
        invariant 0 <= i <= |ws|
        invariant WriteAll(Abstract(), ws[i..]) == WriteAll(old(Abstract()), ws)
      {
        assert ws[i..][0] == ws[i] && ws[i..][1..] == ws[i + 1..];
        var _ := Write(ws[i].key, ws[i].value);
        i := i + 1;
      }
    }

    /**
     `dispatchUpdater`: call every updater with the live context, then reset
     the counter. Private in the source: only `RunNextDeferred` calls it, once
     it has taken ticket 0 off the queue.
     */
    method DispatchUpdater(r: Reactions<V>)
      modifies this
      ensures Abstract() == Dispatch(old(Abstract()), r)
    {
      var ls := updaters;
      var i := 0;
      while i < |ls|
        invariant 0 <= i <= |ls|
        invariant DeliverEach(Abstract(), ls[i..], r) == DeliverEach(old(Abstract()), ls, r)
      {
        assert ls[i..][0] == ls[i] && ls[i..][1..] == ls[i + 1..];
        var seen := target.props;
        log := log + [Delivery(ls[i], seen)];
        WriteEach(r(ls[i], seen).writes);  // a throw is caught; the loop goes on
        i := i + 1;
      }
      queueSequence := 0;
    }

    /** The host runs the oldest deferred callback, which dispatches only for ticket 0. */
    method RunNextDeferred(r: Reactions<V>)
      requires Valid()
      modifies this
      ensures Valid() && Abstract() == RunNext(old(Abstract()), r)
      ensures old(pending) == [] ==> Abstract() == old(Abstract())
      ensures old(pending) != [] && old(pending[0]) != 0 ==>
                pending == old(pending[1..]) && target == old(target) && updaters == old(updaters)
                && queueSequence == old(queueSequence) && log == old(log)
      ensures old(pending) != [] && old(pending[0]) == 0 ==> queueSequence == 0 && 0 !in pending
    {
      ghost var before := Abstract();
      if pending != [] {
        RunNextKeepsConsistent(before, r);
        var current := pending[0];
        pending := pending[1..];
        if current == 0 {
          DispatchUpdater(r);
        }
      }
    }

    /** The host's microtask checkpoint: run deferred callbacks until none is left. */
    method RunMicrotasks(r: Reactions<V>)
      requires Valid()
      modifies this
      ensures Valid() && Abstract() == Drain(old(Abstract()), r)
      ensures pending == [] && queueSequence == 0
    {
      while pending != []
        invariant Valid()
        invariant Drain(Abstract(), r) == Drain(old(Abstract()), r)
        decreases if 0 in pending then 1 else 0, |pending|
      {
        RunNextKeepsConsistent(Abstract(), r);
        RunNextDeferred(r);
      }
    }
  }

  /** The state after installing `{count: 0}` and subscribing updater 7. */
  function CountStore(): State<int> {
    State(Target(map["count" := 0], {}, {}, true), true, [7], 0, [], [])
  }

  function CountWrites(): seq<Assignment<int>> {
    [Assignment("count", 1), Assignment("count", 2)]
  }

  lemma CountWritesAsRun()
    ensures Write(Write(CountStore(), "count", 1), "count", 2) == WriteAll(CountStore(), CountWrites())
    ensures AssignAll(CountStore().target, CountWrites()).props == map["count" := 2]
  {
    assert map["count" := 0]["count" := 1]["count" := 2] == map["count" := 2];
  }

  /** Updaters that only read. */
  function Silent(): Reactions<int> {
    (l, m) => Reaction([], false)
  }

  lemma CountBatchDelivered()
    ensures Consistent(WriteAll(CountStore(), CountWrites()))
    ensures var d := Drain(WriteAll(CountStore(), CountWrites()), Silent());
      d.log == [Delivery(7, map["count" := 2])] && d.target.props == map["count" := 2]
  {
    CountWritesAsRun();
    BatchQuietDispatch(CountStore(), CountWrites(), Silent());
    BatchDispatchesOnce(CountStore(), CountWrites(), Silent());
    var d := Drain(WriteAll(CountStore(), CountWrites()), Silent());
    assert |d.log| == 1 && d.log[0].listener == 7 && d.log[0].seen == map["count" := 2];
  }

  /**
   A store used as the source intends: install a context, subscribe one
   updater, write twice in the same tick, let the host run the queue. The
   updater is called once, and sees both writes.
   */
  method BatchOfTwoWrites() returns (seen: map<string, int>, ghost delivered: seq<Delivery<int>>)
    ensures delivered == [Delivery(7, map["count" := 2])]
    ensures seen == map["count" := 2]
  {
    var store := new Service<int>();
    store.SetContext(Target(map["count" := 0], {}, {}, true));
    store.Subscribe(7);
    assert store.Abstract() == CountStore();
    var _ := store.Write("count", 1);
    var _ := store.Write("count", 2);
    CountWritesAsRun();
    CountBatchDelivered();
    store.RunMicrotasks(Silent());
    delivered := store.log;
    seen := store.GetCurrentContext();
  }
}
