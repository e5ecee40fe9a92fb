/** The timeout heap is the sleep queue of the scheduler: what the heap code does to thread
    objects is what the steps of the machine do to the set of sleepers. */
module SleepQueue {
  import opened Lists
  import opened Threads
  import opened HeapOrder
  import opened TimeoutHeap
  import opened Scheduler
  import opened SchedulerWakeups

  ghost function Ids(q: seq<Thread>): seq<Tid> {
    seq(|q|, i requires 0 <= i < |q| => q[i].id)
  }

  /** The thread object `x` shows what the scheduler knows about it. */
  ghost predicate Shows(x: Thread, s: State)
    reads x
  {
    && x.id in s.threads
    && var th := s.threads[x.id];
    th.state == x.state && th.onSleepq == x.onSleepq && th.timedout == x.timedOut && th.due == x.due
  }

  /** No two objects are the same thread. */
  ghost predicate Distinct(nodes: set<Thread>) {
    forall x, y :: x in nodes && y in nodes && x.id == y.id ==> x == y
  }

  /** `ids` are the identities of `nodes`. */
  ghost predicate Named(nodes: set<Thread>, ids: set<Tid>) {
    forall t :: t in ids <==> exists x :: x in nodes && x.id == t
  }

  lemma NamedAdd(nodes: set<Thread>, ids: set<Tid>, x: Thread)
    requires Named(nodes, ids)
    ensures Named(nodes + {x}, ids + {x.id})
  {
    forall t | t in ids + {x.id}
      ensures exists y :: y in nodes + {x} && y.id == t
    {
      if t == x.id {
        assert x in nodes + {x};
      } else {
        var y :| y in nodes && y.id == t;
        assert y in nodes + {x};
      }
    }
  }

  /** The part of `nodes` that stays has the identities that stay. */
  lemma NamedPart(nodes: set<Thread>, ids: set<Tid>, part: set<Thread>, part': set<Tid>)
    requires Named(nodes, ids) && Distinct(nodes) && part <= nodes
    requires forall t :: t in part' ==> t in ids
    requires forall x :: x in nodes ==> (x in part <==> x.id in part')
    ensures Named(part, part')
  {
  }

  lemma IdsAppend(q: seq<Thread>, r: seq<Thread>)
    ensures Ids(q + r) == Ids(q) + Ids(r)
  {
  }

  lemma IdsOne(x: Thread)
    ensures Ids([x]) == [x.id]
  {
  }

  /** The processor `v` with the thread objects `nodes` represents the state `s`. */
  ghost predicate Represents(v: Vp, nodes: set<Thread>, s: State)
    reads v, v.sleepers, nodes
  {
    && v.Valid() && v.sleepers <= nodes && (forall x :: x in v.runq ==> x in nodes) && Distinct(nodes)
    && (forall x :: x in nodes ==> Shows(x, s) && (x.onSleepq <==> x in v.sleepers) && !x.idleThread)
    && s.lastClock == v.lastClock && s.runq == Ids(v.runq)
    && Named(v.sleepers, s.sleepq)
  }

  lemma SleepersKnown(v: Vp, nodes: set<Thread>, s: State)
    requires Represents(v, nodes, s)
    ensures forall t :: t in s.sleepq ==> t in s.threads && s.threads[t].onSleepq
    ensures forall x :: x in v.sleepers ==> x.id in s.sleepq
    ensures forall x :: x in nodes && x !in v.sleepers ==> x.id !in s.sleepq
  {
  }

  /** `_ST_ADD_SLEEPQ` on the heap is the insertion into the set. */
  method Enqueue(v: Vp, x: Thread, timeout: nat, ghost nodes: set<Thread>, ghost s: State)
    requires Represents(v, nodes, s) && x in nodes && x !in v.sleepers
    modifies v`sleepq, v`sleepqSize, v`tree, v`sleepers, v.sleepers`left, v.sleepers`right
    modifies v.sleepers`heapIndex, x`left, x`right, x`heapIndex, x`due, x`onSleepq
    ensures x.id in s.threads && Represents(v, nodes, AddSleep(s, x.id, timeout))
  {
    hide Vp.Valid, Named, Ids;
    NamedAdd(v.sleepers, s.sleepq, x);
    v.AddSleepQ(x, timeout);
  }

  lemma Requeued(s: State, t: Tid, cause: Cause)
    requires t in s.threads && cause in {Signal, IoReady}
    ensures var s', th := Requeue(s, t, cause), s.threads[t];
            && s'.runq == s.runq + [t] && s'.lastClock == s.lastClock
            && s'.sleepq == (if th.onSleepq then s.sleepq - {t} else s.sleepq)
            && s'.threads == s.threads[t := th.(state := Runnable, onSleepq := false, causes := th.causes + [cause])]
  {
  }

  /** The wake-up of a thread, asleep or not, is the requeueing. */
  method Wake(v: Vp, x: Thread, cause: Cause, ghost nodes: set<Thread>, ghost s: State)
    requires Represents(v, nodes, s) && x in nodes && cause in {Signal, IoReady}
    modifies v`sleepq, v`sleepqSize, v`tree, v`sleepers, v`runq
    modifies v.sleepers`left, v.sleepers`right, v.sleepers`heapIndex, x`onSleepq, x`state
    ensures x.id in s.threads && Represents(v, nodes, Requeue(s, x.id, cause))
  {
    hide Vp.Valid, Named, Ids, Requeue;
    Requeued(s, x.id, cause);
    SleepersKnown(v, nodes, s);
    IdsAppend(v.runq, [x]);
    IdsOne(x);
    if x.onSleepq {
      NamedPart(v.sleepers, s.sleepq, v.sleepers - {x}, s.sleepq - {x.id});
      v.DelSleepQ(x);
    }
    x.state := Runnable;
    v.runq := v.runq + [x];
  }

  lemma IdsIn(q: seq<Thread>)
    ensures forall x :: x in q ==> x.id in Ids(q)
    ensures forall t :: t in Ids(q) ==> exists x :: x in q && x.id == t
  {
    forall x | x in q
      ensures x.id in Ids(q)
    {
      var i :| 0 <= i < |q| && q[i] == x;
      assert Ids(q)[i] == x.id;
    }
    forall t | t in Ids(q)
      ensures exists x :: x in q && x.id == t
    {
      var i :| 0 <= i < |q| && Ids(q)[i] == t;
      assert q[i] in q && q[i].id == t;
    }
  }

  /** The threads that the clock check moved, `moved` out of the sleepers `were`, are in an
      expiry order. */
  lemma OrderOfMoved(moved: seq<Thread>, due: map<Thread, nat>, were: set<Thread>, s: State, now: nat)
    requires Ascending(moved, due) && Distinct(were)
    requires forall x :: x in were ==> x in due && x.id in s.threads && s.threads[x.id].due == due[x]
    requires forall x :: x in moved <==> x in were && due[x] <= now
    requires Named(were, s.sleepq)
    ensures ExpiryOrder(s, now, Ids(moved))
    ensures forall x :: x in were ==> (x.id in Ids(moved) <==> x in moved)
  {
    var order := Ids(moved);
    IdsIn(moved);
    forall i, j | 0 <= i < j < |order|
      ensures order[i] != order[j] && order[i] in s.threads && order[j] in s.threads
      ensures s.threads[order[i]].due <= s.threads[order[j]].due
    {
      assert moved[i] in moved && moved[j] in moved;
    }
  }

  /** What the scheduler knows after the clock check. */
  lemma Expired(s: State, order: seq<Tid>, now: nat)
    requires ExpiryOrder(s, now, order) && forall t :: t in s.sleepq ==> t in s.threads && s.threads[t].onSleepq
    ensures var s' := ExpireAll(s.(lastClock := now), order);
            && s'.runq == s.runq + order && s'.lastClock == now
            && (forall t :: t in s'.sleepq <==> t in s.sleepq && t !in order)
            && s'.threads.Keys == s.threads.Keys
            && forall t :: t in s.threads ==>
                 s'.threads[t] == if t in order then Woken(s.threads[t], Timer) else s.threads[t]
  {
    ClockMoves(s.(lastClock := now), order);
    ClockDues(s.(lastClock := now), order);
  }

  /** `_st_vp_check_clock` on the heap yields an expiry order, and its effect is to expire the
      sleepers in that order. */
  method Tick(v: Vp, now: nat, ghost nodes: set<Thread>, ghost s: State) returns (ghost order: seq<Tid>)
    requires Represents(v, nodes, s)
    modifies v, v.sleepers`left, v.sleepers`right, v.sleepers`heapIndex
    modifies v.sleepers`onSleepq, v.sleepers`timedOut, v.sleepers`state
    ensures ExpiryOrder(s, now, order)
    ensures Represents(v, nodes, ExpireAll(s.(lastClock := now), order))
  {
    hide Vp.Valid, Ascending, ExpireAll, ExpiryOrder, Named, Ids;
    ghost var due, were, before := v.DueMap(v.sleepers), v.sleepers, v.runq;
    SleepersKnown(v, nodes, s);
    ghost var moved := v.CheckClock(now);
    order := Ids(moved);
    OrderOfMoved(moved, due, were, s, now);
    Expired(s, order, now);
    IdsAppend(before, moved);
    ghost var s' := ExpireAll(s.(lastClock := now), order);
    NamedPart(were, s.sleepq, v.sleepers, s'.sleepq);
    forall x | x in nodes
      ensures Shows(x, s') && (x.onSleepq <==> x in v.sleepers) && !x.idleThread
    {
      assert x in were || x.id !in order;
    }
  }
}
