/** What the scheduler promises, over every run. */
module SchedulerTheorems {
  import opened Lists
  import opened Threads
  import opened PollSet
  import opened Scheduler
  import opened SchedulerInv

  // ----- queues

  /** In every state of every run: the run queue has no duplicates and holds exactly the
      runnable threads, the sleep flag says whether a thread is in the heap, no running or
      runnable thread is in the heap, and a thread that has been woken inside a blocking call
      was woken by exactly one cause, a blocked one by none. */
  lemma QueueSafety(ms: set<Mid>, cs: set<Cid>, states: seq<State>, steps: seq<Step>, i: nat)
    requires IsRun(states, steps) && states[0] == Init(ms, cs) && i < |states|
    ensures var s := states[i];
            && NoDup(s.runq)
            && (forall t :: t in s.runq <==> t in s.threads && s.threads[t].state == Runnable)
            && (forall t :: t in s.sleepq <==> t in s.threads && s.threads[t].onSleepq)
            && (forall t :: t in s.sleepq ==> s.threads[t].state != Running && s.threads[t].state != Runnable)
            && (forall t :: t in s.threads && Blocked(s.threads[t].state) ==> s.threads[t].causes == [])
            && (forall t :: t in s.threads && s.threads[t].call != NoCall && !Blocked(s.threads[t].state) ==>
                  |s.threads[t].causes| == 1)
  {
    var s := states[i];
    RunInv(ms, cs, states, steps, i);
    forall t | t in s.threads
      ensures ThreadOk(s, RunOf(s.current), t)
    {
    }
  }

  /** The running thread can always go on: it is outside every call and may make any, or it has
      been resumed inside one, which can return. */
  lemma RunnerGoesOn(ms: set<Mid>, cs: set<Cid>, states: seq<State>, steps: seq<Step>, i: nat)
    requires IsRun(states, steps) && states[0] == Init(ms, cs) && i < |states| && states[i].current.Run?
    ensures var s := states[i];
            && s.current.t in s.threads
            && (if s.threads[s.current.t].call == NoCall then Enabled(s, Exit) else Enabled(s, Return))
  {
    var s := states[i];
    RunInv(ms, cs, states, steps, i);
    assert ThreadOk(s, Some(s.current.t), s.current.t);
  }

  // ----- mutexes

  /** Mutual exclusion: at most one thread is between a successful acquire and its unlock,
      and it is the owner, however calls and interrupts are interleaved. */
  lemma MutualExclusion(ms: set<Mid>, cs: set<Cid>, states: seq<State>, steps: seq<Step>, i: nat, m: Mid, t: Tid, u: Tid)
    requires IsRun(states, steps) && states[0] == Init(ms, cs) && i < |states|
    requires Holds(states[i].log, t, m) && Holds(states[i].log, u, m)
    ensures t == u && m in states[i].mutexes && states[i].mutexes[m].owner == Some(t)
  {
    RunInv(ms, cs, states, steps, i);
  }

  /** A resumed `st_mutex_lock` returns 0 exactly when the caller is the owner and EINTR
      exactly when it is not, also when an interrupt arrived after the handoff. */
  lemma LockReturn(s: State, m: Mid)
    requires Inv(s) && Enabled(s, Return) && s.threads[s.current.t].call == Locking(m)
    ensures var me := s.current.t;
            LockRet(s, me, m) == if s.mutexes[m].owner == Some(me) then Ok(0) else Err(EINTR)
    ensures Holds(Apply(s, Return).log, s.current.t, m) <==> s.mutexes[m].owner == Some(s.current.t)
  {
    var me := s.current.t;
    assert ThreadOk(s, Some(me), me);
    HoldsAppend(s.log, Event(me, LockOp(m), LockRet(s, me, m)), me, m);
  }

  /** However `st_mutex_lock` returns, at once or after waiting: 0 only to the owner, and EINTR
      to an owner exactly if it already was when it called, with an interrupt pending. */
  lemma LockOutcome(s: State, step: Step, m: Mid)
    requires Inv(s) && Enabled(s, step)
    requires step == Lock(m) || (step == Return && s.threads[s.current.t].call == Locking(m))
    ensures var me, s' := s.current.t, Apply(s, step);
            && m in s.mutexes && m in s'.mutexes
            && (s'.log == s.log + [Event(me, LockOp(m), Ok(0))] ==> s'.mutexes[m].owner == Some(me))
            && (s'.log == s.log + [Event(me, LockOp(m), Err(EINTR))] ==>
                  (s'.mutexes[m].owner == Some(me) <==> step == Lock(m) && s.mutexes[m].owner == Some(me)))
            && (step == Lock(m) && s.mutexes[m].owner == Some(me) ==>
                  s'.log == s.log + [Event(me, LockOp(m), Err(if s.threads[me].interrupt then EINTR else EDEADLK))])
  {
    var me, s' := s.current.t, Apply(s, step);
    assert ThreadOk(s, Some(me), me);
    if step == Return {
      assert s'.log[|s.log|] == Event(me, LockOp(m), LockRet(s, me, m));
    } else if s.threads[me].interrupt || s.mutexes[m].owner == None || s.mutexes[m].owner == Some(me) {
      assert |s'.log| == |s.log| + 1 && s'.log[|s.log|].op == LockOp(m);
    } else {
      assert |s'.log| == |s.log|;
    }
  }

  ghost predicate WaitsFor(s: State, m: Mid, t: Tid) {
    t in s.threads && s.threads[t].state == LockWait && s.threads[t].call == Locking(m)
  }

  /** No barging: a free mutex has no waiter, so neither `st_mutex_lock` nor `st_mutex_trylock`
      can overtake one. */
  lemma NoBarging(s: State, m: Mid, t: Tid)
    requires Inv(s) && m in s.mutexes && s.mutexes[m].owner == None
    ensures !WaitsFor(s, m, t)
  {
    assert MutexOk(s, m);
    if t in s.threads {
      assert ThreadOk(s, RunOf(s.current), t);
    }
  }

  /** The number of threads ahead of `t` in `q` that still wait. */
  ghost function Ahead(threads: map<Tid, Thr>, q: seq<Tid>, t: Tid): nat {
    if q == [] || q[0] == t then 0
    else (if q[0] in threads && threads[q[0]].state == LockWait then 1 else 0) + Ahead(threads, q[1..], t)
  }

  ghost function Rank(s: State, m: Mid, t: Tid): nat {
    if m in s.mutexes then Ahead(s.threads, s.mutexes[m].waitq, t) else 0
  }

  lemma {:induction false} AheadMonotone(threads: map<Tid, Thr>, threads': map<Tid, Thr>, q: seq<Tid>, t: Tid)
    requires forall x :: x in q ==> x in threads && x in threads'
    requires forall x :: x in q ==> (threads'[x].state == LockWait ==> threads[x].state == LockWait)
    ensures Ahead(threads', q, t) <= Ahead(threads, q, t)
  {
    if q != [] && q[0] != t {
      assert q[0] in q;
      AheadMonotone(threads, threads', q[1..], t);
    }
  }

  lemma {:induction false} AheadAppend(threads: map<Tid, Thr>, q: seq<Tid>, t: Tid, me: Tid)
    requires t in q
    ensures Ahead(threads, q + [me], t) == Ahead(threads, q, t)
  {
    if q[0] != t {
      AheadAppend(threads, q[1..], t, me);
      assert (q + [me])[1..] == q[1..] + [me];
    }
  }

  lemma {:induction false} AheadRemove(threads: map<Tid, Thr>, q: seq<Tid>, t: Tid, me: Tid)
    requires t != me
    ensures Ahead(threads, Remove(q, me), t) <= Ahead(threads, q, t)
  {
    if q != [] && q[0] != me && q[0] != t {
      AheadRemove(threads, q[1..], t, me);
      var r := Remove(q[1..], me);
      assert ([q[0]] + r)[1..] == r;
    }
  }

  /** When the first waiter ahead of `t` stops waiting, `t` moves up. */
  lemma {:induction false} AheadHandOver(threads: map<Tid, Thr>, threads': map<Tid, Thr>, q: seq<Tid>, t: Tid)
    requires NoDup(q) && t in q && forall x :: x in q ==> x in threads && x in threads'
    requires forall x :: x in q ==> (threads'[x].state == LockWait ==> threads[x].state == LockWait)
    requires threads[t].state == LockWait
    requires var i := FirstIn(threads, q, LockWait); i < |q| && q[i] != t && threads'[q[i]].state != LockWait
    ensures Ahead(threads', q, t) < Ahead(threads, q, t)
  {
    assert q[0] in q;
    if threads[q[0]].state == LockWait {
      AheadMonotone(threads, threads', q[1..], t);
    } else {
      AheadHandOver(threads, threads', q[1..], t);
    }
  }

  /** The waiters for mutexes are left alone, and nobody joins them. */
  ghost predicate Unmoved(s: State, s': State) {
    && s'.mutexes == s.mutexes
    && forall x :: x in s.threads ==>
         && x in s'.threads
         && (s.threads[x].state == LockWait ==> s'.threads[x] == s.threads[x])
         && (s'.threads[x].state == LockWait ==> s.threads[x].state == LockWait)
  }

  lemma UnmovedRank(s: State, s': State, m: Mid, t: Tid)
    requires Inv(s) && Unmoved(s, s') && WaitsFor(s, m, t)
    ensures WaitsFor(s', m, t) && Rank(s', m, t) <= Rank(s, m, t)
  {
    if m in s.mutexes {
      assert MutexOk(s, m);
      AheadMonotone(s.threads, s'.threads, s.mutexes[m].waitq, t);
    }
  }

  /** `_st_vp_schedule` changes the state of nobody but the head of the run queue. */
  lemma ScheduleThreads(s: State)
    ensures var s' := Schedule(s);
            && s'.mutexes == s.mutexes && s'.threads.Keys == s.threads.Keys
            && forall x :: x in s.threads ==>
                 s'.threads[x] == s.threads[x] || (s.threads[x].state == Runnable && s'.threads[x].state == Running)
  {
  }

  lemma ScheduleUnmoved(s: State, s': State)
    requires Unmoved(s, s')
    ensures Unmoved(s, Schedule(s'))
  {
    hide Schedule;
    ScheduleThreads(s');
  }

  lemma {:induction false} NotifyUnmoved(s: State, s': State, q: seq<Tid>, broadcast: bool)
    requires Unmoved(s, s')
    ensures Unmoved(s, NotifyFrom(s', q, broadcast))
    decreases q
  {
    if q == [] {
    } else {
      if q[0] in s'.threads && s'.threads[q[0]].state == CondWait {
        if broadcast {
          NotifyUnmoved(s, Requeue(s', q[0], Signal), q[1..], broadcast);
        }
      } else {
        NotifyUnmoved(s, s', q[1..], broadcast);
      }
    }
  }

  lemma InvReqs(s: State)
    requires InvAt(s, None)
    ensures ReqsOk(s)
  {
  }

  lemma OneUnmoved(s: State, s': State, r: Rid, ready: Ready)
    requires Unmoved(s, s') && r in s'.reqs && s'.reqs[r].tid in s'.threads
    requires Notified(s'.reqs[r].pds, ready) ==> s'.threads[s'.reqs[r].tid].state == IoWait
    ensures Unmoved(s, DispatchReq(s', r, ready))
  {
    hide Notified, MarkAll, UnregisterDispatched, Remove;
  }

  lemma {:induction false} PassUnmoved(s: State, s': State, q: seq<Rid>, ready: Ready)
    requires Unmoved(s, s') && InvAt(s', None) && NoDup(q) && SafePass(s', q, ready)
    ensures Unmoved(s, DispatchFrom(s', q, ready))
    decreases q
  {
    hide InvAt, Unmoved, DispatchReq, Notified, ReqsOk;
    if q == [] {
    } else {
      var s2 := DispatchReq(s', q[0], ready);
      assert q[0] in q;
      InvReqs(s');
      DispatchReqInv(s', q[0], ready);
      OneUnmoved(s, s', q[0], ready);
      forall x | x in q[1..]
        ensures x in s2.ioq && x in s2.reqs && s2.reqs[x].tid in s2.threads
        ensures Notified(s2.reqs[x].pds, ready) ==> s2.threads[s2.reqs[x].tid].state == IoWait
      {
        assert x in q && x != q[0];
        DispatchReqFrame(s', q[0], ready, x);
      }
      PassUnmoved(s, s2, q[1..], ready);
    }
  }

  lemma {:induction false} DispatchUnmoved(s: State, s': State, passes: seq<Ready>)
    requires Unmoved(s, s') && InvAt(s', None) && SafeDispatch(s', passes)
    ensures Unmoved(s, Dispatch(s', passes))
    decreases passes
  {
    if passes == [] {
    } else {
      DispatchFromInv(s', s'.ioq, passes[0]);
      PassUnmoved(s, s', s'.ioq, passes[0]);
      DispatchUnmoved(s, DispatchFrom(s', s'.ioq, passes[0]), passes[1..]);
    }
  }

  lemma {:induction false} ExpireUnmoved(s: State, s': State, order: seq<Tid>)
    requires Unmoved(s, s') && InvAt(s', None) && NoDup(order) && forall t :: t in order ==> t in s'.sleepq
    ensures Unmoved(s, ExpireAll(s', order))
    decreases order
  {
    if order == [] {
    } else {
      var t := order[0];
      assert t in order;
      assert ThreadOk(s', None, t);
      RequeueInv(s', None, t, Timer);
      ExpireUnmoved(s, Requeue(s', t, Timer), order[1..]);
    }
  }

  lemma IdleUnmoved(s: State, passes: seq<Ready>, now: nat, order: seq<Tid>)
    requires Inv(s) && Enabled(s, IdleTurn(passes, now, order)) && Benign(s, IdleTurn(passes, now, order))
    ensures Unmoved(s, Apply(s, IdleTurn(passes, now, order)))
  {
    if s.current == Idle {
      EmptyRunqWaiting(s);
      WaitingSafe(s, passes);
    }
    var s1 := Dispatch(s, passes);
    DispatchInv(s, passes);
    DispatchUnmoved(s, s, passes);
    ClockInv(s1, now);
    ExpireUnmoved(s, s1.(lastClock := now), order);
    ScheduleUnmoved(s, ExpireAll(s1.(lastClock := now), order));
  }

  ghost predicate Unlocks(s: State, step: Step, m: Mid) {
    step == Unlock(m) && s.current.Run? && m in s.mutexes && s.mutexes[m].owner == Some(s.current.t)
  }

  /** One step of a waiter that is not interrupted: it becomes the owner, or it still waits
      and has lost no place, and has gained one if the step was an unlock. */
  ghost predicate MovedUp(s: State, step: Step, s': State, m: Mid, t: Tid) {
    || (m in s'.mutexes && s'.mutexes[m].owner == Some(t))
    || (WaitsFor(s', m, t) && Rank(s', m, t) + (if Unlocks(s, step, m) then 1 else 0) <= Rank(s, m, t))
  }

  lemma UnlockMovesUp(s: State, n: Mid, m: Mid, t: Tid)
    requires Inv(s) && Enabled(s, Unlock(n)) && WaitsFor(s, m, t)
    ensures MovedUp(s, Unlock(n), Apply(s, Unlock(n)), m, t)
  {
    hide CauseOk, CountsOk, ReqsOk, CondsOk, HoldersOk;
    var me, mu, s' := s.current.t, s.mutexes[n], Apply(s, Unlock(n));
    assert ThreadOk(s, Some(me), t) && ThreadOk(s, Some(me), me);
    assert MutexOk(s, m) && MutexOk(s, n);
    var i := FirstIn(s.threads, mu.waitq, LockWait);
    if mu.owner != Some(me) || i == |mu.waitq| || mu.waitq[i] == t {
      AheadMonotone(s.threads, s'.threads, s.mutexes[m].waitq, t);
    } else if n == m {
      AheadHandOver(s.threads, s'.threads, mu.waitq, t);
    } else {
      AheadMonotone(s.threads, s'.threads, s.mutexes[m].waitq, t);
    }
  }

  lemma LockMovesUp(s: State, n: Mid, m: Mid, t: Tid)
    requires Inv(s) && Enabled(s, Lock(n)) && WaitsFor(s, m, t)
    ensures MovedUp(s, Lock(n), Apply(s, Lock(n)), m, t)
  {
    hide Schedule;
    var me, mu, s' := s.current.t, s.mutexes[n], Apply(s, Lock(n));
    assert ThreadOk(s, Some(me), t) && ThreadOk(s, Some(me), me);
    assert MutexOk(s, m);
    if s.threads[me].interrupt || mu.owner == None || mu.owner == Some(me) {
      AheadMonotone(s.threads, s'.threads, s.mutexes[m].waitq, t);
    } else {
      var s1 := LockBlock(s, me, n);
      ScheduleUnmoved(s1, s1);
      AheadMonotone(s.threads, s'.threads, s.mutexes[m].waitq, t);
      AheadAppend(s'.threads, s.mutexes[m].waitq, t, me);
    }
  }

  /** A thread that leaves its call changes its own record, in which its state stays, and at
      most leaves one wait queue. */
  ghost predicate Left(s: State, s': State, me: Tid)
    requires me in s.threads
  {
    && s'.threads.Keys == s.threads.Keys && s'.mutexes.Keys == s.mutexes.Keys
    && (forall x :: x in s.threads && x != me ==> s'.threads[x] == s.threads[x])
    && s'.threads[me].state == s.threads[me].state
    && forall m :: m in s.mutexes ==>
         && s'.mutexes[m].owner == s.mutexes[m].owner
         && (s'.mutexes[m].waitq == s.mutexes[m].waitq || s'.mutexes[m].waitq == Remove(s.mutexes[m].waitq, me))
  }

  lemma FinishLeft(s: State, s1: State, me: Tid, op: Op, ret: Ret)
    requires me in s.threads && s1.threads == s.threads && Left(s, s1, me)
    ensures Left(s, Finish(s1, me, op, ret), me)
  {
    hide Remove;
  }

  lemma ReturnShape(s: State)
    requires Enabled(s, Return)
    ensures Left(s, Apply(s, Return), s.current.t)
  {
    hide Unregister, CountReady, LockRet, WaitRet, PollRet, Remove, Finish;
    var me := s.current.t;
    match s.threads[me].call
    case Locking(m) =>
      var mu := s.mutexes[m];
      FinishLeft(s, SetMutex(s, m, mu.(waitq := Remove(mu.waitq, me))), me, LockOp(m), LockRet(s, me, m));
    case Waiting(c) =>
      FinishLeft(s, s.(conds := s.conds[c := Remove(s.conds[c], me)]), me, WaitOp(c), WaitRet(s.threads[me]));
    case Polling(r) =>
      var rq := s.reqs[r];
      FinishLeft(s, s, me, PollOp(r), PollRet(s, me, r));
      if rq.onIoq {
        FinishLeft(s, s.(ioq := Remove(s.ioq, r), ev := Unregister(s.ev, rq.pds), reqs := s.reqs[r := rq.(onIoq := false)],
                         unregistered := s.unregistered + [r]), me, PollOp(r), PollRet(s, me, r));
      }
    case Napping =>
      FinishLeft(s, s, me, SleepOp, Ok(0));
  }

  lemma ReturnMovesUp(s: State, m: Mid, t: Tid)
    requires Inv(s) && Enabled(s, Return) && WaitsFor(s, m, t)
    ensures MovedUp(s, Return, Apply(s, Return), m, t)
  {
    ReturnShape(s);
    assert s.threads[s.current.t].state == Running && m in s.mutexes by {
      assert ThreadOk(s, Some(s.current.t), s.current.t) && ThreadOk(s, Some(s.current.t), t);
    }
    assert forall x :: x in s.mutexes[m].waitq ==> x in s.threads by {
      assert MutexOk(s, m);
    }
    hide Inv, Apply, Enabled, Remove;
    var me, s' := s.current.t, Apply(s, Return);
    AheadMonotone(s.threads, s'.threads, s.mutexes[m].waitq, t);
    AheadRemove(s'.threads, s.mutexes[m].waitq, t, me);
  }

  lemma InterruptMovesUp(s: State, x: Tid, m: Mid, t: Tid)
    requires Inv(s) && Enabled(s, Interrupt(x)) && WaitsFor(s, m, t) && x != t
    ensures MovedUp(s, Interrupt(x), Apply(s, Interrupt(x)), m, t)
  {
    hide CauseOk, CountsOk, ReqsOk, CondsOk, HoldersOk;
    var s' := Apply(s, Interrupt(x));
    assert ThreadOk(s, RunOf(s.current), t);
    assert MutexOk(s, m);
    AheadMonotone(s.threads, s'.threads, s.mutexes[m].waitq, t);
  }

  lemma TryLockMovesUp(s: State, n: Mid, m: Mid, t: Tid)
    requires Inv(s) && Enabled(s, TryLock(n)) && WaitsFor(s, m, t)
    ensures MovedUp(s, TryLock(n), Apply(s, TryLock(n)), m, t)
  {
    var s' := Apply(s, TryLock(n));
    assert MutexOk(s, n);
  }

  /** The current thread is the running one. */
  lemma RunnerState(s: State)
    requires Inv(s) && s.current.Run?
    ensures s.current.t in s.threads && s.threads[s.current.t].state == Running
  {
    assert ThreadOk(s, Some(s.current.t), s.current.t);
  }

  /** A running thread blocks on something other than a mutex, and another one is scheduled. */
  lemma BlockUnmoved(s: State, s1: State, me: Tid)
    requires me in s.threads && s.threads[me].state == Running && me in s1.threads && s1.threads[me].state != LockWait
    requires s1.mutexes == s.mutexes && forall x :: x in s.threads && x != me ==> x in s1.threads && s1.threads[x] == s.threads[x]
    ensures Unmoved(s, Schedule(s1))
  {
    hide Schedule;
    assert Unmoved(s, s1);
    ScheduleUnmoved(s, s1);
  }

  lemma WaitUnmoved(s: State, c: Cid, timeout: Option<nat>)
    requires Inv(s) && Enabled(s, Wait(c, timeout))
    ensures Unmoved(s, Apply(s, Wait(c, timeout)))
  {
    RunnerState(s);
    hide Schedule, Inv;
    var me := s.current.t;
    if s.threads[me].interrupt {
    } else {
      hide Unmoved;
      var s1 := Block(s, me, CondWait, Waiting(c)).(conds := s.conds[c := s.conds[c] + [me]]);
      BlockUnmoved(s, if timeout.Some? then AddSleep(s1, me, timeout.value) else s1, me);
    }
  }

  lemma PollUnmoved(s: State, r: Rid, pds: seq<PollFd>, timeout: Option<nat>)
    requires Inv(s) && Enabled(s, Poll(r, pds, timeout))
    ensures Unmoved(s, Apply(s, Poll(r, pds, timeout)))
  {
    RunnerState(s);
    hide Schedule, Inv, Register;
    var me := s.current.t;
    if s.threads[me].interrupt {
    } else {
      hide Unmoved;
      BlockUnmoved(s, AddSleep(PollBlock(s, me, r, pds), me, if timeout.Some? then timeout.value else 1), me);
    }
  }

  lemma SleepUnmoved(s: State, usecs: Option<nat>)
    requires Inv(s) && Enabled(s, Sleep(usecs))
    ensures Unmoved(s, Apply(s, Sleep(usecs)))
  {
    RunnerState(s);
    hide Schedule, Inv;
    var me := s.current.t;
    if s.threads[me].interrupt {
    } else if usecs.Some? {
      hide Unmoved;
      BlockUnmoved(s, AddSleep(Block(s, me, Sleeping, Napping), me, usecs.value), me);
    } else {
      hide Unmoved;
      BlockUnmoved(s, Block(s, me, Suspended, Napping), me);
    }
  }

  lemma OtherUnmoved(s: State, step: Step)
    requires Inv(s) && Enabled(s, step) && Benign(s, step)
    requires !step.Unlock? && !step.Lock? && !step.Return? && !step.Interrupt? && !step.TryLock?
    ensures Unmoved(s, Apply(s, step))
  {
    match step {
      case IdleTurn(passes, now, order) => IdleUnmoved(s, passes, now, order);
      case Notify(c, broadcast) => NotifyUnmoved(s, s, s.conds[c], broadcast);
      case Wait(c, timeout) => WaitUnmoved(s, c, timeout);
      case Poll(r, pds, timeout) => PollUnmoved(s, r, pds, timeout);
      case Sleep(usecs) => SleepUnmoved(s, usecs);
      case Exit => assert ThreadOk(s, RunOf(s.current), s.current.t);
      case Create(t) =>
    }
  }

  lemma StepMovesUp(s: State, step: Step, m: Mid, t: Tid)
    requires Inv(s) && Enabled(s, step) && Benign(s, step) && WaitsFor(s, m, t) && step != Interrupt(t)
    ensures MovedUp(s, step, Apply(s, step), m, t)
  {
    var s' := Apply(s, step);
    if step.Unlock? {
      UnlockMovesUp(s, step.m, m, t);
    } else if step.Lock? {
      LockMovesUp(s, step.m, m, t);
    } else if step.Return? {
      ReturnMovesUp(s, m, t);
    } else if step.Interrupt? {
      InterruptMovesUp(s, step.t, m, t);
    } else if step.TryLock? {
      TryLockMovesUp(s, step.m, m, t);
    } else {
      OtherUnmoved(s, step);
      UnmovedRank(s, s', m, t);
    }
  }

  ghost function UnlockCount(states: seq<State>, steps: seq<Step>, m: Mid): nat
    requires |states| == |steps| + 1
  {
    if steps == [] then 0
    else (if Unlocks(states[0], steps[0], m) then 1 else 0) + UnlockCount(states[1..], steps[1..], m)
  }

  /** FIFO handoff: a waiter with k threads still waiting ahead of it, if it is not
      interrupted, owns the mutex after at most k + 1 unlocks. */
  lemma {:induction false} BoundedHandoff(states: seq<State>, steps: seq<Step>, m: Mid, t: Tid)
    requires IsRun(states, steps) && Inv(states[0]) && WaitsFor(states[0], m, t)
    requires Interrupt(t) !in steps
    requires UnlockCount(states, steps, m) >= Rank(states[0], m, t) + 1
    ensures exists i :: 0 <= i < |states| && m in states[i].mutexes && states[i].mutexes[m].owner == Some(t)
    decreases |steps|
  {
    hide Inv, Apply, Enabled, Benign, WaitsFor, Rank, Unlocks;
    StepInv(states[0], steps[0]);
    StepMovesUp(states[0], steps[0], m, t);
    if m in states[1].mutexes && states[1].mutexes[m].owner == Some(t) {
    } else {
      var rest := states[1..];
      assert IsRun(rest, steps[1..]);
      BoundedHandoff(rest, steps[1..], m, t);
      var i :| 0 <= i < |rest| && m in rest[i].mutexes && rest[i].mutexes[m].owner == Some(t);
      assert states[i + 1] == rest[i];
    }
  }
}
