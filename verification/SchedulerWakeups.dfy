/** Who wakes whom: condition variables, the clock, poll requests and the two idle loops. */
module SchedulerWakeups {
  import opened Lists
  import opened Threads
  import opened PollSet
  import opened Scheduler
  import opened SchedulerInv
  import opened SchedulerDispatch

  // ----- condition variables

  /** A signal makes runnable exactly the earliest thread still in COND_WAIT, skipping those
      that the clock or an interrupt has already woken, and nothing if there is none. */
  lemma {:induction false} SignalWakesEarliest(s: State, q: seq<Tid>)
    ensures var i := FirstIn(s.threads, q, CondWait);
            NotifyFrom(s, q, false) == if i == |q| then s else Requeue(s, q[i], Signal)
  {
    if q != [] && !(q[0] in s.threads && s.threads[q[0]].state == CondWait) {
      SignalWakesEarliest(s, q[1..]);
    }
  }

  /** The threads of a wait queue that are still in state `st`. */
  function StillIn(threads: map<Tid, Thr>, q: seq<Tid>, st: RunState): seq<Tid> {
    if q == [] then []
    else (if q[0] in threads && threads[q[0]].state == st then [q[0]] else []) + StillIn(threads, q[1..], st)
  }

  lemma {:induction false} StillInFrame(threads: map<Tid, Thr>, threads': map<Tid, Thr>, q: seq<Tid>, st: RunState)
    requires forall x :: x in q ==> (x in threads <==> x in threads') && (x in threads ==> threads[x] == threads'[x])
    ensures StillIn(threads, q, st) == StillIn(threads', q, st)
  {
    if q == [] {
    } else {
      assert q[0] in q;
      StillInFrame(threads, threads', q[1..], st);
    }
  }

  function Woken(th: Thr, cause: Cause): Thr {
    th.(state := Runnable, onSleepq := false, causes := th.causes + [cause],
        timedout := th.timedout || (cause == Timer && th.state == CondWait))
  }

  lemma StillInHead(threads: map<Tid, Thr>, q: seq<Tid>, st: RunState)
    requires q != []
    ensures var rest := StillIn(threads, q[1..], st);
            StillIn(threads, q, st) == if q[0] in threads && threads[q[0]].state == st then [q[0]] + rest else rest
  {
  }

  /** Waking one thread by a signal or the clock. */
  lemma RequeueOne(s: State, t: Tid, cause: Cause)
    requires t in s.threads && cause in {Signal, Timer}
    ensures var s' := Requeue(s, t, cause);
            && s'.runq == s.runq + [t] && s'.threads == s.threads[t := Woken(s.threads[t], cause)]
            && s'.sleepq == if s.threads[t].onSleepq then s.sleepq - {t} else s.sleepq
  {
  }

  lemma {:induction false} BroadcastRunq(s: State, q: seq<Tid>)
    requires NoDup(q)
    ensures NotifyFrom(s, q, true).runq == s.runq + StillIn(s.threads, q, CondWait)
    decreases q
  {
    if q == [] {
    } else {
      hide Requeue, Woken, StillIn;
      var t, rest := q[0], q[1..];
      StillInHead(s.threads, q, CondWait);
      if t in s.threads && s.threads[t].state == CondWait {
        var s1 := Requeue(s, t, Signal);
        RequeueOne(s, t, Signal);
        assert t !in rest;
        StillInFrame(s.threads, s1.threads, rest, CondWait);
        BroadcastRunq(s1, rest);
      } else {
        BroadcastRunq(s, rest);
      }
    }
  }

  lemma {:induction false} BroadcastThread(s: State, q: seq<Tid>, t: Tid)
    requires NoDup(q) && t in s.threads
    ensures var s' := NotifyFrom(s, q, true);
            && t in s'.threads
            && s'.threads[t] == if t in q && s.threads[t].state == CondWait then Woken(s.threads[t], Signal) else s.threads[t]
    decreases q
  {
    hide Requeue;
    if q == [] {
    } else {
      var rest := q[1..];
      assert t in q <==> t == q[0] || t in rest;
      if q[0] in s.threads && s.threads[q[0]].state == CondWait {
        RequeueOne(s, q[0], Signal);
        BroadcastThread(Requeue(s, q[0], Signal), rest, t);
      } else {
        BroadcastThread(s, rest, t);
      }
    }
  }

  /** A broadcast makes all of them runnable, in queue order, and touches no other thread. */
  lemma BroadcastWakesAll(s: State, q: seq<Tid>)
    requires NoDup(q)
    ensures var s' := NotifyFrom(s, q, true);
            && s'.runq == s.runq + StillIn(s.threads, q, CondWait)
            && forall t :: t in s.threads ==>
                 && t in s'.threads
                 && s'.threads[t] == if t in q && s.threads[t].state == CondWait then Woken(s.threads[t], Signal) else s.threads[t]
  {
    BroadcastRunq(s, q);
    forall t | t in s.threads
      ensures var s' := NotifyFrom(s, q, true);
              && t in s'.threads
              && s'.threads[t] == if t in q && s.threads[t].state == CondWait then Woken(s.threads[t], Signal) else s.threads[t]
    {
      BroadcastThread(s, q, t);
    }
  }

  /** A resumed `st_cond_timedwait` returns 0 exactly when a signal woke the thread and no
      interrupt has followed, ETIME exactly when the deadline came first and no interrupt has
      followed, and EINTR exactly when the interrupt flag is up. */
  lemma WaitReturn(s: State, c: Cid)
    requires Inv(s) && Enabled(s, Return) && s.threads[s.current.t].call == Waiting(c)
    ensures var th := s.threads[s.current.t];
            && |th.causes| == 1
            && (WaitRet(th) == Ok(0) <==> th.causes == [Signal] && !th.interrupt)
            && (WaitRet(th) == Err(ETIME) <==> th.causes == [Timer] && !th.interrupt)
            && (WaitRet(th) == Err(EINTR) <==> th.interrupt)
            && (th.causes == [Interrupted] ==> th.interrupt)
  {
    assert ThreadOk(s, Some(s.current.t), s.current.t);
  }

  /** The timed-out flag lives only inside the wait whose deadline set it. */
  lemma TimeoutDoesNotLeak(s: State, t: Tid)
    requires Inv(s) && t in s.threads && s.threads[t].timedout
    ensures s.threads[t].call.Waiting? && s.threads[t].causes == [Timer] && !Blocked(s.threads[t].state)
  {
    assert ThreadOk(s, RunOf(s.current), t);
  }

  // ----- the clock

  /** The clock check appends exactly the expired sleepers in the given order, takes them out
      of the heap, flags only condition waiters, and leaves every other thread alone. */
  lemma {:induction false} ClockMoves(s: State, order: seq<Tid>)
    requires NoDup(order) && forall t :: t in order ==> t in s.threads && t in s.sleepq && s.threads[t].onSleepq
    ensures var s' := ExpireAll(s, order);
            && s'.runq == s.runq + order
            && (forall t :: t in s'.sleepq <==> t in s.sleepq && t !in order)
            && s'.threads.Keys == s.threads.Keys
            && forall t :: t in s.threads ==>
                 s'.threads[t] == if t in order then Woken(s.threads[t], Timer) else s.threads[t]
    decreases order
  {
    hide Requeue, Woken;
    if order == [] {
    } else {
      var t, rest := order[0], order[1..];
      assert forall x :: x in order <==> x == t || x in rest;
      assert t !in rest && t in order;
      RequeueOne(s, t, Timer);
      ClockMoves(Requeue(s, t, Timer), rest);
      assert s.runq + [t] + rest == s.runq + order;
    }
  }

  /** The clock check touches neither the clock nor the due times. */
  lemma {:induction false} ClockDues(s: State, order: seq<Tid>)
    ensures var s' := ExpireAll(s, order);
            && s'.threads.Keys == s.threads.Keys && s'.lastClock == s.lastClock
            && forall t :: t in s.threads ==> s'.threads[t].due == s.threads[t].due
    decreases order
  {
    if order == [] {
    } else {
      ClockDues(if order[0] in s.threads then Requeue(s, order[0], Timer) else s, order[1..]);
    }
  }

  /** After the clock check no sleeper is due, and those that were due run in due order. */
  lemma ClockSpec(s: State, now: nat, order: seq<Tid>)
    requires InvAt(s, None) && ExpiryOrder(s, now, order)
    ensures var s' := ExpireAll(s, order);
            && s'.runq == s.runq + order
            && (forall t :: t in s'.sleepq <==> t in s.sleepq && s.threads[t].due > now)
  {
    forall t | t in s.sleepq
      ensures s.threads[t].onSleepq
    {
      assert ThreadOk(s, None, t);
    }
    ClockMoves(s, order);
  }

  // ----- sleeping

  /** A resumed `st_usleep` returns 0 whatever woke it and leaves the interrupt flag as it is,
      so an interrupted sleep reports success and the next blocking call gets EINTR. */
  lemma SleepReturn(s: State)
    requires Inv(s) && Enabled(s, Return) && s.threads[s.current.t].call == Napping
    ensures var me, s' := s.current.t, Apply(s, Return);
            && s'.log == s.log + [Event(me, SleepOp, Ok(0))]
            && (s.threads[me].causes == [Timer] || s.threads[me].causes == [Interrupted])
            && (s.threads[me].causes == [Interrupted] ==> s.threads[me].interrupt)
            && me in s'.threads && s'.threads[me].interrupt == s.threads[me].interrupt
  {
    assert ThreadOk(s, Some(s.current.t), s.current.t);
  }

  // ----- poll requests

  lemma {:induction false} ReadyCounted(pds: seq<PollFd>)
    ensures CountReady(pds) >= 1 <==> AnyReady(pds)
  {
    if pds == [] {
    } else {
      var rest, pd := pds[..|pds| - 1], pds[|pds| - 1];
      ReadyCounted(rest);
      assert forall x :: x in pds <==> x in rest || x == pd;
      if AnyReady(pds) && !pd.revents {
        var x :| x in pds && x.revents;
        assert x in rest;
      }
    }
  }

  /** The positions of the entries that are ready. */
  ghost function ReadyPositions(pds: seq<PollFd>): set<int> {
    set i | 0 <= i < |pds| && pds[i].revents
  }

  lemma {:induction false} ReadyIsCounted(pds: seq<PollFd>)
    ensures CountReady(pds) == |ReadyPositions(pds)|
  {
    if pds == [] {
    } else {
      var n := |pds| - 1;
      var rest := pds[..n];
      ReadyIsCounted(rest);
      assert ReadyPositions(pds) == ReadyPositions(rest) + if pds[n].revents then {n} else {};
    }
  }

  /** A resumed `st_poll` reports ready entries exactly when the dispatcher took its request
      off the I/O queue; otherwise it was the clock or an interrupt, and it takes the request
      off itself. */
  lemma PollReturn(s: State, r: Rid)
    requires Inv(s) && Enabled(s, Return) && s.threads[s.current.t].call == Polling(r)
    ensures var me := s.current.t;
            && (s.reqs[r].onIoq <==> r in s.ioq)
            && (s.threads[me].interrupt <==> PollRet(s, me, r) == Err(EINTR))
            && (PollRet(s, me, r).Ok? ==> (PollRet(s, me, r).n >= 1 <==> r !in s.ioq))
            && (r in s.ioq <==> s.threads[me].causes != [IoReady])
            && r !in Apply(s, Return).ioq && r in Apply(s, Return).unregistered
  {
    var me := s.current.t;
    assert ThreadOk(s, Some(me), me);
    ReadyCounted(s.reqs[r].pds);
    RemoveElems(s.ioq, r);
  }

  /** In every state of every run each counter is the number of matching entries of requests
      still on the I/O queue, and each request ever made is either on the queue or has been
      unregistered, exactly once. */
  lemma PollConservation(ms: set<Mid>, cs: set<Cid>, states: seq<State>, steps: seq<Step>, i: nat)
    requires IsRun(states, steps) && states[0] == Init(ms, cs) && i < |states|
    ensures var s := states[i];
            && (forall k, fd :: Get(s.ev, k, fd) == Outstanding(s.ioq, s.reqs, k, fd))
            && NoDup(s.ioq) && NoDup(s.unregistered)
            && (forall r :: r in s.reqs ==> (r in s.ioq <==> r !in s.unregistered))
  {
    RunInv(ms, cs, states, steps, i);
  }

  lemma {:induction false} MatchesPositive(pds: seq<PollFd>, k: Kind, fd: int)
    ensures Matches(pds, k, fd) > 0 <==> exists pd :: pd in pds && pd.fd == fd && fd > 0 && pd.Wants(k)
  {
    if pds == [] {
    } else {
      var rest, pd := pds[..|pds| - 1], pds[|pds| - 1];
      MatchesPositive(rest, k, fd);
      assert forall x :: x in pds <==> x in rest || x == pd;
    }
  }

  lemma {:induction false} OutstandingPositive(q: seq<Rid>, reqs: map<Rid, Request>, k: Kind, fd: int)
    ensures Outstanding(q, reqs, k, fd) > 0 <==> exists r :: r in q && r in reqs && Matches(reqs[r].pds, k, fd) > 0
  {
    if q == [] {
    } else {
      OutstandingPositive(q[1..], reqs, k, fd);
      assert forall x :: x in q <==> x == q[0] || x in q[1..];
    }
  }

  /** Some outstanding request names `fd` for `k`. */
  ghost predicate InUseFor(s: State, k: Kind, fd: int) {
    exists r, pd :: r in s.ioq && r in s.reqs && pd in s.reqs[r].pds && pd.fd == fd && fd > 0 && pd.Wants(k)
  }

  lemma CounterInUse(s: State, k: Kind, fd: int)
    requires Inv(s)
    ensures Get(s.ev, k, fd) > 0 <==> InUseFor(s, k, fd)
    ensures InUseFor(s, k, fd) ==> Group(fd) < s.ev.groups
  {
    assert CountsOk(s.ev, s.ioq, s.reqs);
    hide Inv, Get, Matches, Outstanding, PositiveOnly;
    OutstandingPositive(s.ioq, s.reqs, k, fd);
    forall r | r in s.ioq && r in s.reqs
      ensures Matches(s.reqs[r].pds, k, fd) > 0 <==>
              exists pd :: pd in s.reqs[r].pds && pd.fd == fd && fd > 0 && pd.Wants(k)
    {
      MatchesPositive(s.reqs[r].pds, k, fd);
    }
  }

  /** Closing a descriptor is refused exactly when an outstanding request uses it. */
  lemma CloseRefusedIffInUse(s: State, fd: int)
    requires Inv(s)
    ensures CloseBusy(s.ev, fd) <==> exists k: Kind :: InUseFor(s, k, fd)
  {
    hide Inv, InUseFor;
    forall k: Kind
      ensures Get(s.ev, k, fd) > 0 <==> InUseFor(s, k, fd)
      ensures InUseFor(s, k, fd) ==> Group(fd) < s.ev.groups
    {
      CounterInUse(s, k, fd);
    }
    if k: Kind :| InUseFor(s, k, fd) {
      assert Get(s.ev, k, fd) > 0;
      match k
      case In =>
      case Out =>
      case Pri =>
    }
  }

  // ----- dispatching while threads are runnable

  /** A poller that no longer waits, while its request is still queued, is on the run queue. */
  lemma AwakePoller(s: State, r: Rid)
    requires InvAt(s, None) && r in s.ioq && s.threads[s.reqs[r].tid].state != IoWait
    ensures s.reqs[r].tid in s.runq
  {
    assert ThreadOk(s, None, s.reqs[r].tid);
  }

  lemma UnsafePassDuplicates(s: State, ready: Ready, r: Rid)
    requires Queued(s) && r in s.ioq && Notified(s.reqs[r].pds, ready) && s.reqs[r].tid in s.runq
    ensures !NoDup(DispatchFrom(s, s.ioq, ready).runq)
  {
    var t, more := s.reqs[r].tid, Owners(s.reqs, s.ioq, ready);
    PassSpec(s, s.ioq, ready);
    ScanSpec(s.reqs[r].pds, ready);
    OwnersIn(s.reqs, s.ioq, ready, r);
    hide DispatchFrom, Queued, Owners, IoqDone, ReqsDone, ThreadsDone, Notified, Served;
    var i :| 0 <= i < |s.runq| && s.runq[i] == t;
    var j :| 0 <= j < |more| && more[j] == t;
    assert (s.runq + more)[i] == t && (s.runq + more)[|s.runq| + j] == t;
  }

  /** A pass over the I/O queue leaves the run queue free of duplicates if and only if no
      selected request belongs to a thread that is already runnable. The idle fiber always
      meets this, because it dispatches with an empty run queue; the native fiber need not. */
  lemma PassNoDupIffSafe(s: State, ready: Ready)
    requires InvAt(s, None)
    ensures NoDup(DispatchFrom(s, s.ioq, ready).runq) <==> SafePass(s, s.ioq, ready)
    ensures s.runq == [] ==> SafePass(s, s.ioq, ready)
  {
    if SafePass(s, s.ioq, ready) {
      DispatchFromInv(s, s.ioq, ready);
    } else {
      var r :| r in s.ioq && Notified(s.reqs[r].pds, ready) && s.threads[s.reqs[r].tid].state != IoWait;
      AwakePoller(s, r);
      InvQueued(s);
      UnsafePassDuplicates(s, ready, r);
    }
  }

  // ----- a whole turn of the native fiber

  lemma {:induction false} PassAppends(s: State, q: seq<Rid>, ready: Ready)
    ensures s.runq <= DispatchFrom(s, q, ready).runq && DispatchFrom(s, q, ready).current == s.current
    decreases q
  {
    hide Notified, MarkAll, UnregisterDispatched;
    if q == [] {
    } else {
      PassAppends(DispatchReq(s, q[0], ready), q[1..], ready);
    }
  }

  lemma {:induction false} DispatchAppends(s: State, passes: seq<Ready>)
    ensures s.runq <= Dispatch(s, passes).runq && Dispatch(s, passes).current == s.current
    decreases passes
  {
    if passes == [] {
    } else {
      PassAppends(s, s.ioq, passes[0]);
      DispatchAppends(DispatchFrom(s, s.ioq, passes[0]), passes[1..]);
    }
  }

  lemma {:induction false} ExpireAppends(s: State, order: seq<Tid>)
    ensures s.runq <= ExpireAll(s, order).runq && ExpireAll(s, order).current == s.current
    decreases order
  {
    if order == [] {
    } else {
      ExpireAppends(if order[0] in s.threads then Requeue(s, order[0], Timer) else s, order[1..]);
    }
  }

  lemma DuplicateStays<T>(q: seq<T>, q': seq<T>)
    requires q <= q' && !NoDup(q)
    ensures !NoDup(q')
  {
    var i, j :| 0 <= i < j < |q| && q[i] == q[j];
    assert q'[i] == q'[j];
  }

  lemma SafePassInv(s: State, ready: Ready)
    requires InvAt(s, None) && SafePass(s, s.ioq, ready)
    ensures InvAt(DispatchFrom(s, s.ioq, ready), None)
  {
    DispatchFromInv(s, s.ioq, ready);
  }

  /** Passes that are not safe leave a duplicate behind. */
  lemma {:induction false} UnsafeDispatchDuplicates(s: State, passes: seq<Ready>)
    requires InvAt(s, None) && !SafeDispatch(s, passes)
    ensures !NoDup(Dispatch(s, passes).runq)
    decreases passes
  {
    hide InvAt, SafePass;
    var s1 := DispatchFrom(s, s.ioq, passes[0]);
    PassNoDupIffSafe(s, passes[0]);
    if SafePass(s, s.ioq, passes[0]) {
      SafePassInv(s, passes[0]);
      UnsafeDispatchDuplicates(s1, passes[1..]);
    } else {
      DispatchAppends(s1, passes[1..]);
      DuplicateStays(s1.runq, Dispatch(s, passes).runq);
    }
  }

  /** What the invariant says about the run queue alone. */
  lemma InvRunq(s: State)
    ensures Inv(s) ==>
              && NoDup(s.runq)
              && (s.current.Run? ==> s.current.t !in s.runq)
              && (s.current == Idle ==> s.runq == [])
  {
    if Inv(s) && s.current.Run? {
      assert ThreadOk(s, Some(s.current.t), s.current.t);
    }
  }

  lemma HeadNoDup<T>(q: seq<T>)
    requires q != []
    ensures NoDup(q[1..]) && q[0] !in q[1..] ==> NoDup(q)
  {
    var rest := q[1..];
    assert forall i :: 1 <= i < |q| ==> q[i] == rest[i - 1];
  }

  /** Scheduling from a run queue with a duplicate leaves it there, or runs a thread that is
      still queued, or idles with threads queued. */
  lemma DuplicateBreaksInv(s: State)
    requires s.current == Native && !NoDup(s.runq)
    ensures !Inv(Schedule(s))
  {
    InvRunq(Schedule(s));
    HeadNoDup(s.runq);
    hide Inv;
  }

  lemma NativeInv(s: State)
    requires Inv(s) && s.current == Native
    ensures InvAt(s, None)
  {
  }

  /** The condition that the runs put on the native fiber is exact: its turn, over all select
      groups, keeps the invariant if and only if no pass selects a request whose thread has
      already been woken. */
  lemma TurnInvIffSafe(s: State, passes: seq<Ready>, now: nat, order: seq<Tid>)
    requires Inv(s) && s.current == Native && Enabled(s, IdleTurn(passes, now, order))
    ensures Inv(Apply(s, IdleTurn(passes, now, order))) <==> SafeDispatch(s, passes)
  {
    var s1 := Dispatch(s, passes).(lastClock := now);
    if SafeDispatch(s, passes) {
      IdleInv(s, passes, now, order);
    } else {
      hide Inv;
      assert InvAt(s, None) by {
        NativeInv(s);
      }
      UnsafeDispatchDuplicates(s, passes);
      DispatchAppends(s, passes);
      ExpireAppends(s1, order);
      DuplicateStays(s1.runq, ExpireAll(s1, order).runq);
      DuplicateBreaksInv(ExpireAll(s1, order));
    }
  }
}
