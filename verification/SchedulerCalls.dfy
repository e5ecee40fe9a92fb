/** What a caller may rely on when a call of sched.c or sync.c returns, or has not returned yet:
    each predicate relates the states before and after to the result. A call that has not
    returned, because it gave up the processor, has no result. */
module SchedulerCalls {
  import opened Lists
  import opened Threads
  import opened PollSet
  import opened Scheduler
  import opened SchedulerInv
  import opened SchedulerDispatch
  import opened SchedulerTheorems
  import opened SchedulerWakeups

  /** What the log shows of a call. */
  ghost predicate Returned(s: State, s': State, me: Tid, op: Op, rc: Option<Ret>) {
    s'.log == if rc.Some? then s.log + [Event(me, op, rc.value)] else s.log
  }

  /** `_st_vp_schedule` leaves everything alone but the head of the run queue. */
  lemma ScheduleFrame(s: State)
    ensures SameResources(s, Schedule(s)) && Schedule(s).sleepq == s.sleepq && Schedule(s).lastClock == s.lastClock
    ensures Schedule(s).threads.Keys == s.threads.Keys
    ensures forall t :: t in s.threads && t !in s.runq ==> Schedule(s).threads[t] == s.threads[t]
  {
  }

  /** `_st_vp_schedule`, called between threads: the invariant holds again, the head of the run
      queue runs, and the processor idles only if nobody is queued. */
  ghost predicate SchedulePromise(s: State, s': State) {
    InvAt(s, None) && (s.current.Run? ==> s.current.t !in s.runq) ==>
      && Inv(s')
      && (if s.runq == [] then s'.current == Idle else s'.current == Run(s.runq[0]) && s'.runq == s.runq[1..])
  }

  lemma ScheduleKept(s: State)
    ensures SchedulePromise(s, Schedule(s))
  {
    if InvAt(s, None) && (s.current.Run? ==> s.current.t !in s.runq) {
      ScheduleInv(s);
    }
  }

  /** The caller runs, so it is not queued. */
  lemma CallerNotQueued(s: State)
    requires Inv(s) && s.current.Run?
    ensures s.current.t in s.threads && s.current.t !in s.runq && s.threads[s.current.t].state == Running
    ensures !s.threads[s.current.t].onSleepq && s.current.t !in s.sleepq
  {
    assert ThreadOk(s, Some(s.current.t), s.current.t);
  }

  /** The caller goes on, with the record `th`; no other thread is touched and no queue of
      threads. */
  ghost predicate Stays(s: State, s': State, th: Thr)
    requires s.current.Run?
  {
    s'.current == s.current && s'.threads == s.threads[s.current.t := th] && s'.runq == s.runq && s'.sleepq == s.sleepq
  }

  /** The caller has given up the processor, with the record `th`, to the head of the run queue or
      to the idle loop; no other thread is touched. */
  ghost predicate Switches(s: State, s': State, th: Thr)
    requires s.current.Run?
  {
    if s.runq == [] then s'.current == Idle && s'.runq == [] && s'.threads == s.threads[s.current.t := th]
    else
      var next := s.runq[0];
      && next in s.threads && next != s.current.t && s'.current == Run(next) && s'.runq == s.runq[1..]
      && s'.threads == s.threads[s.current.t := th][next := s.threads[next].(state := Running)]
  }

  lemma GivesUp(s: State, s1: State, th: Thr)
    requires Inv(s) && s.current.Run? && s1.current == s.current && s1.runq == s.runq
    requires s1.threads == s.threads[s.current.t := th]
    ensures Switches(s, Schedule(s1), th)
  {
    CallerNotQueued(s);
    if s.runq != [] {
      assert ThreadOk(s, Some(s.current.t), s.runq[0]);
    }
    hide Inv;
  }

  // ----- mutexes

  /** Nobody but `me` is between an acquire and an unlock of `m`. */
  ghost predicate HoldsAlone(s: State, me: Tid, m: Mid) {
    Holds(s.log, me, m) && forall t :: Holds(s.log, t, m) ==> t == me
  }

  lemma OnlyHolder(s: State, me: Tid, m: Mid)
    requires Inv(s) && Holds(s.log, me, m)
    ensures HoldsAlone(s, me, m)
  {
  }

  /** `st_mutex_lock` up to the switch: it waits behind all that wait already; or it holds the
      mutex, alone, and nobody was waiting; or it has taken the pending interrupt and left the
      rest as it was; or it has left everything as it was, being the owner. */
  ghost predicate LockPromise(s: State, s': State, m: Mid, rc: Option<Ret>)
    requires s.current.Run? && s.current.t in s.threads && m in s.mutexes
  {
    var me, mu, th := s.current.t, s.mutexes[m], s.threads[s.current.t];
    match rc
    case None =>
      && WaitsFor(s', m, me) && s'.mutexes == s.mutexes[m := mu.(waitq := mu.waitq + [me])]
      && Switches(s, s', th.(state := LockWait, call := Locking(m), causes := [])) && s'.sleepq == s.sleepq
    case Some(Ok(_)) =>
      && HoldsAlone(s', me, m) && (forall t :: !WaitsFor(s, m, t))
      && s'.mutexes == s.mutexes[m := mu.(owner := Some(me))] && Stays(s, s', th)
    case Some(Err(e)) =>
      && s'.mutexes == s.mutexes
      && (if th.interrupt then e == EINTR && Stays(s, s', th.(interrupt := false))
          else e == EDEADLK && mu.owner == Some(me) && Stays(s, s', th))
  }

  /** The part of the promise that is about threads. */
  lemma LockThreads(s: State, m: Mid)
    requires Inv(s) && Enabled(s, Lock(m))
    ensures var s', th := Apply(s, Lock(m)), s.threads[s.current.t];
            if th.interrupt then Stays(s, s', th.(interrupt := false))
            else if s.mutexes[m].owner == None || s.mutexes[m].owner == Some(s.current.t) then Stays(s, s', th)
            else Switches(s, s', th.(state := LockWait, call := Locking(m), causes := [])) && s'.sleepq == s.sleepq
  {
    hide Inv, Schedule, Switches;
    var me, th := s.current.t, s.threads[s.current.t];
    assert s.threads[me := th] == s.threads;
    if !th.interrupt && s.mutexes[m].owner != None && s.mutexes[m].owner != Some(me) {
      GivesUp(s, LockBlock(s, me, m), th.(state := LockWait, call := Locking(m), causes := []));
      ScheduleFrame(LockBlock(s, me, m));
    }
  }

  lemma LockKept(s: State, m: Mid, rc: Option<Ret>)
    requires Inv(s) && Enabled(s, Lock(m)) && Inv(Apply(s, Lock(m)))
    requires Returned(s, Apply(s, Lock(m)), s.current.t, LockOp(m), rc)
    ensures LockPromise(s, Apply(s, Lock(m)), m, rc)
  {
    var me, s', mu := s.current.t, Apply(s, Lock(m)), s.mutexes[m];
    CallerNotQueued(s);
    LockThreads(s, m);
    hide Inv, Schedule, Switches, Stays;
    if s.threads[me].interrupt || mu.owner == Some(me) {
    } else if mu.owner == None {
      HoldsAppend(s.log, Event(me, LockOp(m), Ok(0)), me, m);
      OnlyHolder(s', me, m);
      forall t
        ensures !WaitsFor(s, m, t)
      {
        NoBarging(s, m, t);
      }
    } else {
      ScheduleFrame(LockBlock(s, me, m));
    }
  }

  /** `st_mutex_lock` after the switch: it returns 0 exactly if it was handed the mutex, and
      then holds it alone; otherwise EINTR, which takes the interrupt. It no longer queues. */
  ghost predicate LockedPromise(s: State, s': State, m: Mid, rc: Ret)
    requires s.current.Run? && s.current.t in s.threads && m in s.mutexes
  {
    var me, mu, th := s.current.t, s.mutexes[m], s.threads[s.current.t];
    && rc == (if mu.owner == Some(me) then Ok(0) else Err(EINTR))
    && (rc == Ok(0) <==> th.causes == [Handoff])
    && (if rc == Ok(0) then HoldsAlone(s', me, m) else !Holds(s'.log, me, m))
    && m in s'.mutexes && me !in s'.mutexes[m].waitq && s'.mutexes[m].owner == mu.owner
    && Stays(s, s', th.(call := NoCall, interrupt := if rc == Err(EINTR) then false else th.interrupt))
  }

  lemma LockedKept(s: State, m: Mid)
    requires Inv(s) && Enabled(s, Return) && s.threads[s.current.t].call == Locking(m)
    requires Inv(Apply(s, Return))
    ensures LockedPromise(s, Apply(s, Return), m, LockRet(s, s.current.t, m))
  {
    var me, s' := s.current.t, Apply(s, Return);
    LockReturn(s, m);
    assert |s.threads[me].causes| == 1 && CauseOk(s, me, s.threads[me], s.threads[me].causes[0]) by {
      assert ThreadOk(s, Some(me), me);
    }
    assert NoDup(s.mutexes[m].waitq) by {
      assert MutexOk(s, m);
    }
    RemoveElems(s.mutexes[m].waitq, me);
    if LockRet(s, me, m) == Ok(0) {
      OnlyHolder(s', me, m);
    }
    hide Inv, Remove, Holds;
  }

  /** `st_mutex_trylock`: 0 exactly if the mutex was free, and then nobody was waiting for it. A
      pending interrupt is not looked at. */
  ghost predicate TryLockPromise(s: State, s': State, m: Mid, rc: Ret)
    requires s.current.Run? && s.current.t in s.threads && m in s.mutexes
  {
    var me, mu := s.current.t, s.mutexes[m];
    && rc == (if mu.owner == None then Ok(0) else Err(EBUSY))
    && (rc == Ok(0) ==> HoldsAlone(s', me, m) && forall t :: !WaitsFor(s, m, t))
    && s'.mutexes == (if rc == Ok(0) then s.mutexes[m := mu.(owner := Some(me))] else s.mutexes)
    && Stays(s, s', s.threads[me])
  }

  lemma TryLockKept(s: State, m: Mid, rc: Ret)
    requires Inv(s) && Enabled(s, TryLock(m)) && Inv(Apply(s, TryLock(m)))
    requires Returned(s, Apply(s, TryLock(m)), s.current.t, TryLockOp(m), Some(rc))
    ensures TryLockPromise(s, Apply(s, TryLock(m)), m, rc)
  {
    hide Inv;
    var me, s' := s.current.t, Apply(s, TryLock(m));
    assert rc == s'.log[|s.log|].ret;
    assert s.threads[me := s.threads[me]] == s.threads;
    if s.mutexes[m].owner == None {
      HoldsAppend(s.log, Event(me, TryLockOp(m), Ok(0)), me, m);
      OnlyHolder(s', me, m);
      forall t
        ensures !WaitsFor(s, m, t)
      {
        NoBarging(s, m, t);
      }
    }
  }

  /** What an unlock does to threads: the new owner, if there is one, joins the end of the run
      queue, woken by the handoff alone, and nobody else is touched. */
  ghost predicate Handed(s: State, s': State, owner: Option<Tid>) {
    && s'.current == s.current && s'.sleepq == s.sleepq
    && match owner
       case None => s'.threads == s.threads && s'.runq == s.runq
       case Some(w) =>
         && w in s.threads && s'.runq == s.runq + [w]
         && s'.threads == s.threads[w := s.threads[w].(state := Runnable, causes := s.threads[w].causes + [Handoff])]
  }

  /** `st_mutex_unlock`: 0 exactly for the owner, who holds it no more. Every waiter has become
      the owner or has fewer ahead of it, and if nobody has become the owner nobody waits. */
  ghost predicate UnlockPromise(s: State, s': State, m: Mid, rc: Ret)
    requires s.current.Run? && m in s.mutexes
  {
    var me := s.current.t;
    && m in s'.mutexes && s'.mutexes == s.mutexes[m := s.mutexes[m].(owner := s'.mutexes[m].owner)]
    && rc == (if s.mutexes[m].owner == Some(me) then Ok(0) else Err(EPERM))
    && (rc != Ok(0) ==> s'.mutexes == s.mutexes && Handed(s, s', None))
    && (rc == Ok(0) ==> !Holds(s'.log, me, m) && s'.mutexes[m].owner != Some(me) && Handed(s, s', s'.mutexes[m].owner))
    && (rc == Ok(0) ==> forall t: Tid :: WaitsFor(s, m, t) ==>
          || s'.mutexes[m].owner == Some(t)
          || (s'.mutexes[m].owner.Some? && WaitsFor(s', m, t) && Rank(s', m, t) < Rank(s, m, t)))
  }

  lemma UnlockThreads(s: State, m: Mid)
    requires Inv(s) && Enabled(s, Unlock(m))
    ensures var s' := Apply(s, Unlock(m));
            && m in s'.mutexes && s'.mutexes == s.mutexes[m := s.mutexes[m].(owner := s'.mutexes[m].owner)]
            && (if s.mutexes[m].owner == Some(s.current.t)
                then s'.mutexes[m].owner != Some(s.current.t) && Handed(s, s', s'.mutexes[m].owner)
                else s'.mutexes == s.mutexes && Handed(s, s', None))
  {
    CallerNotQueued(s);
    hide Inv;
    assert s.mutexes[m := s.mutexes[m]] == s.mutexes;
  }

  lemma UnlockKept(s: State, m: Mid, rc: Ret)
    requires Inv(s) && Enabled(s, Unlock(m)) && Inv(Apply(s, Unlock(m)))
    requires Returned(s, Apply(s, Unlock(m)), s.current.t, UnlockOp(m), Some(rc))
    ensures UnlockPromise(s, Apply(s, Unlock(m)), m, rc)
  {
    var me, s', mu := s.current.t, Apply(s, Unlock(m)), s.mutexes[m];
    assert rc == s'.log[|s.log|].ret;
    UnlockThreads(s, m);
    hide Inv, Rank, Handed;
    if mu.owner == Some(me) {
      HoldsAppend(s.log, Event(me, UnlockOp(m), Ok(0)), me, m);
      forall t: Tid | WaitsFor(s, m, t)
        ensures s'.mutexes[m].owner == Some(t)
                || (s'.mutexes[m].owner.Some? && WaitsFor(s', m, t) && Rank(s', m, t) < Rank(s, m, t))
      {
        UnlockMovesUp(s, m, m, t);
        if s'.mutexes[m].owner == None {
          NoBarging(s', m, t);
        }
      }
    }
  }

  // ----- condition variables

  /** A record that has joined the sleep queue, if there is a time. */
  ghost function Timed(s: State, th: Thr, timeout: Option<nat>): Thr {
    if timeout.Some? then th.(due := s.lastClock + timeout.value, onSleepq := true) else th
  }

  /** A call that blocks unless an interrupt is pending, which it takes: the caller's record has
      become `th`, and it sleeps exactly if there is a time. */
  ghost predicate BlocksUnlessInterrupted(s: State, s': State, th: Thr, timeout: Option<nat>, rc: Option<Ret>)
    requires s.current.Run? && s.current.t in s.threads
  {
    var me, old' := s.current.t, s.threads[s.current.t];
    if old'.interrupt then rc == Some(Err(EINTR)) && Stays(s, s', old'.(interrupt := false))
    else
      && rc == None && Switches(s, s', Timed(s, th, timeout))
      && s'.sleepq == if timeout.Some? then s.sleepq + {me} else s.sleepq
  }

  /** The common proof: `s1` is the state before the sleep queue and the switch. */
  lemma Blocks(s: State, s1: State, th: Thr, timeout: Option<nat>)
    requires Inv(s) && s.current.Run? && s1.current == s.current && s1.runq == s.runq && s1.sleepq == s.sleepq
    requires s1.threads == s.threads[s.current.t := th] && s1.lastClock == s.lastClock
    ensures var s' := Schedule(if timeout.Some? then AddSleep(s1, s.current.t, timeout.value) else s1);
            && Switches(s, s', Timed(s, th, timeout)) && SameResources(s1, s')
            && s'.sleepq == if timeout.Some? then s.sleepq + {s.current.t} else s.sleepq
  {
    hide Inv, Schedule, Switches;
    var s2 := if timeout.Some? then AddSleep(s1, s.current.t, timeout.value) else s1;
    assert s2.threads == s.threads[s.current.t := Timed(s, th, timeout)];
    GivesUp(s, s2, Timed(s, th, timeout));
    ScheduleFrame(s2);
  }

  /** `st_cond_timedwait` up to the switch: the caller waits, last in the queue, and sleeps
      exactly if there is a deadline; or the pending interrupt has been taken. */
  ghost predicate WaitPromise(s: State, s': State, c: Cid, timeout: Option<nat>, rc: Option<Ret>)
    requires s.current.Run? && s.current.t in s.threads && c in s.conds
  {
    var me, th := s.current.t, s.threads[s.current.t];
    && BlocksUnlessInterrupted(s, s', th.(state := CondWait, call := Waiting(c), causes := []), timeout, rc)
    && s'.conds == if rc == None then s.conds[c := s.conds[c] + [me]] else s.conds
  }

  lemma WaitKept(s: State, c: Cid, timeout: Option<nat>, rc: Option<Ret>)
    requires Inv(s) && Enabled(s, Wait(c, timeout))
    requires Returned(s, Apply(s, Wait(c, timeout)), s.current.t, WaitOp(c), rc)
    ensures WaitPromise(s, Apply(s, Wait(c, timeout)), c, timeout, rc)
  {
    hide Inv, Schedule, Switches, AddSleep, Timed;
    var me, th := s.current.t, s.threads[s.current.t];
    if th.interrupt {
      assert Apply(s, Wait(c, timeout)).log[|s.log|] == Event(me, WaitOp(c), Err(EINTR));
    } else {
      var s1 := Block(s, me, CondWait, Waiting(c)).(conds := s.conds[c := s.conds[c] + [me]]);
      Blocks(s, s1, th.(state := CondWait, call := Waiting(c), causes := []), timeout);
    }
  }

  /** `st_cond_timedwait` after the switch: the result is that of the cause and the flag, and both
      flags are down. */
  ghost predicate WaitedPromise(s: State, s': State, c: Cid, rc: Ret)
    requires s.current.Run? && s.current.t in s.threads
  {
    var me, th := s.current.t, s.threads[s.current.t];
    && (rc == Ok(0) <==> th.causes == [Signal] && !th.interrupt)
    && (rc == Err(ETIME) <==> th.causes == [Timer] && !th.interrupt)
    && (rc == Err(EINTR) <==> th.interrupt)
    && Stays(s, s', th.(call := NoCall, timedout := false, interrupt := false))
    && c in s'.conds && me !in s'.conds[c]
  }

  lemma WaitedKept(s: State, c: Cid)
    requires Inv(s) && Enabled(s, Return) && s.threads[s.current.t].call == Waiting(c)
    ensures WaitedPromise(s, Apply(s, Return), c, WaitRet(s.threads[s.current.t]))
  {
    WaitReturn(s, c);
    assert NoDup(s.conds[c]) by {
      assert CondOk(s, c);
    }
    RemoveElems(s.conds[c], s.current.t);
    hide Inv, Remove;
  }

  /** `_st_cond_signal`: the earliest thread still waiting joins the run queue, or all of them
      in queue order. */
  ghost predicate NotifyPromise(s: State, s': State, c: Cid, broadcast: bool)
    requires c in s.conds
  {
    var q := StillIn(s.threads, s.conds[c], CondWait);
    var woken := if broadcast || q == [] then q else [q[0]];
    && s'.conds == s.conds && s'.runq == s.runq + woken && s'.threads.Keys == s.threads.Keys
    && forall t :: t in s.threads ==> s'.threads[t] == if t in woken then Woken(s.threads[t], Signal) else s.threads[t]
  }

  lemma {:induction false} StillInMembers(threads: map<Tid, Thr>, q: seq<Tid>, st: RunState)
    ensures forall t :: t in StillIn(threads, q, st) <==> t in q && t in threads && threads[t].state == st
  {
    if q == [] {
    } else {
      StillInMembers(threads, q[1..], st);
    }
  }

  lemma {:induction false} FirstStillIn(threads: map<Tid, Thr>, q: seq<Tid>, st: RunState)
    ensures var i, w := FirstIn(threads, q, st), StillIn(threads, q, st);
            if i == |q| then w == [] else w != [] && w[0] == q[i]
  {
    if q == [] {
    } else if q[0] in threads && threads[q[0]].state == st {
    } else {
      FirstStillIn(threads, q[1..], st);
    }
  }

  lemma {:induction false} NotifyConds(s: State, q: seq<Tid>, broadcast: bool)
    ensures NotifyFrom(s, q, broadcast).conds == s.conds && NotifyFrom(s, q, broadcast).threads.Keys == s.threads.Keys
    decreases q
  {
    if q == [] {
    } else if q[0] in s.threads && s.threads[q[0]].state == CondWait {
      if broadcast {
        NotifyConds(Requeue(s, q[0], Signal), q[1..], broadcast);
      }
    } else {
      NotifyConds(s, q[1..], broadcast);
    }
  }

  lemma NotifyKept(s: State, c: Cid, broadcast: bool)
    requires Inv(s) && c in s.conds
    ensures NotifyPromise(s, NotifyFrom(s, s.conds[c], broadcast), c, broadcast)
  {
    var q := s.conds[c];
    assert CondOk(s, c);
    hide Inv, StillIn, NotifyFrom, Requeue, Woken;
    NotifyConds(s, q, broadcast);
    StillInMembers(s.threads, q, CondWait);
    if broadcast {
      BroadcastWakesAll(s, q);
    } else {
      var i := FirstIn(s.threads, q, CondWait);
      SignalWakesEarliest(s, q);
      FirstStillIn(s.threads, q, CondWait);
      if i < |q| {
        RequeueOne(s, q[i], Signal);
      }
    }
  }

  // ----- polling

  /** `st_poll` up to the switch: the request is queued, counted and due after its timeout, or
      after one microsecond if it has none. */
  ghost predicate PollPromise(s: State, s': State, r: Rid, pds: seq<PollFd>, timeout: Option<nat>, rc: Option<Ret>)
    requires s.current.Run? && s.current.t in s.threads
  {
    var me, th := s.current.t, s.threads[s.current.t];
    && BlocksUnlessInterrupted(s, s', th.(state := IoWait, call := Polling(r), causes := []),
                               if timeout.Some? then timeout else Some(1), rc)
    && (rc == None ==>
          && s'.ioq == s.ioq + [r] && s'.reqs == s.reqs[r := Request(me, pds, true)]
          && forall k, fd :: Get(s'.ev, k, fd) == Get(s.ev, k, fd) + Matches(pds, k, fd))
    && (rc.Some? ==> s'.ioq == s.ioq && s'.reqs == s.reqs && s'.ev == s.ev)
  }

  lemma PollKept(s: State, r: Rid, pds: seq<PollFd>, timeout: Option<nat>, rc: Option<Ret>)
    requires Inv(s) && Enabled(s, Poll(r, pds, timeout))
    requires Returned(s, Apply(s, Poll(r, pds, timeout)), s.current.t, PollOp(r), rc)
    ensures PollPromise(s, Apply(s, Poll(r, pds, timeout)), r, pds, timeout, rc)
  {
    hide Inv, Schedule, Switches, AddSleep, Timed, Register, Matches, Get;
    var me, th := s.current.t, s.threads[s.current.t];
    if th.interrupt {
      assert Apply(s, Poll(r, pds, timeout)).log[|s.log|] == Event(me, PollOp(r), Err(EINTR));
    } else {
      Blocks(s, PollBlock(s, me, r, pds), th.(state := IoWait, call := Polling(r), causes := []),
             if timeout.Some? then timeout else Some(1));
      forall k, fd
        ensures Get(Register(s.ev, pds), k, fd) == Get(s.ev, k, fd) + Matches(pds, k, fd)
      {
        RegisterCounts(s.ev, pds, k, fd);
      }
    }
  }

  /** `st_poll` after the switch: it returns the number of ready entries if the dispatcher woke
      it, which is at least one, and 0 otherwise; EINTR takes the interrupt. Its request is off
      the queue and the counters, and its entries are as the dispatcher left them. */
  ghost predicate PolledPromise(s: State, s': State, r: Rid, rc: Ret)
    requires s.current.Run? && s.current.t in s.threads && r in s.reqs
  {
    var th, ready := s.threads[s.current.t], ReadyPositions(s.reqs[r].pds);
    && rc == (if th.interrupt then Err(EINTR) else Ok(if th.causes == [IoReady] then |ready| else 0))
    && (th.causes == [IoReady] ==> |ready| >= 1)
    && Stays(s, s', th.(call := NoCall, interrupt := false))
    && r !in s'.ioq && r in s'.unregistered && r in s'.reqs && s'.reqs[r].pds == s.reqs[r].pds
    && forall k, fd :: Get(s'.ev, k, fd) == Outstanding(s'.ioq, s'.reqs, k, fd)
  }

  lemma PolledThreads(s: State, r: Rid)
    requires Enabled(s, Return) && s.threads[s.current.t].call == Polling(r)
    ensures var s', th := Apply(s, Return), s.threads[s.current.t];
            && Stays(s, s', th.(call := NoCall, interrupt := false))
            && r in s'.reqs && s'.reqs[r].pds == s.reqs[r].pds
  {
    hide Unregister, CountReady, Remove;
  }

  lemma PolledKept(s: State, r: Rid)
    requires Inv(s) && Enabled(s, Return) && s.threads[s.current.t].call == Polling(r) && Inv(Apply(s, Return))
    ensures PolledPromise(s, Apply(s, Return), r, PollRet(s, s.current.t, r))
  {
    PollReturn(s, r);
    PolledThreads(s, r);
    ReadyIsCounted(s.reqs[r].pds);
    ReadyCounted(s.reqs[r].pds);
    assert s.threads[s.current.t].causes == [IoReady] ==> AnyReady(s.reqs[r].pds) by {
      assert ThreadOk(s, Some(s.current.t), s.current.t);
    }
    assert CountsOk(Apply(s, Return).ev, Apply(s, Return).ioq, Apply(s, Return).reqs);
    hide Inv, Apply, CountReady, Stays, ReadyPositions, AnyReady;
  }

  // ----- sleeping and interrupting

  /** `st_usleep` up to the switch. */
  ghost predicate SleepPromise(s: State, s': State, usecs: Option<nat>, rc: Option<Ret>)
    requires s.current.Run? && s.current.t in s.threads
  {
    var th := s.threads[s.current.t];
    BlocksUnlessInterrupted(
      s, s', th.(state := if usecs.Some? then Sleeping else Suspended, call := Napping, causes := []), usecs, rc)
  }

  lemma SleepKept(s: State, usecs: Option<nat>, rc: Option<Ret>)
    requires Inv(s) && Enabled(s, Sleep(usecs))
    requires Returned(s, Apply(s, Sleep(usecs)), s.current.t, SleepOp, rc)
    ensures SleepPromise(s, Apply(s, Sleep(usecs)), usecs, rc)
  {
    hide Inv, Schedule, Switches, AddSleep, Timed;
    var me, th, st := s.current.t, s.threads[s.current.t], if usecs.Some? then Sleeping else Suspended;
    if th.interrupt {
      assert Apply(s, Sleep(usecs)).log[|s.log|] == Event(me, SleepOp, Err(EINTR));
    } else {
      Blocks(s, Block(s, me, st, Napping), th.(state := st, call := Napping, causes := []), usecs);
    }
  }

  /** `st_thread_interrupt`: a blocked thread is woken by this and nothing else, and sleeps no
      more; a dead one is left alone; no mutex changes hands and no other thread is touched. */
  ghost predicate InterruptPromise(s: State, s': State, t: Tid)
    requires t in s.threads
  {
    var th := s.threads[t];
    && s'.mutexes == s.mutexes && s'.current == s.current
    && (if th.state == Zombie then s'.threads == s.threads && s'.runq == s.runq && s'.sleepq == s.sleepq
        else if Blocked(th.state) then
          && t !in s.runq && s'.runq == s.runq + [t] && s'.sleepq == s.sleepq - {t}
          && s'.threads == s.threads[t := th.(state := Runnable, onSleepq := false, interrupt := true, causes := [Interrupted])]
        else s'.runq == s.runq && s'.sleepq == s.sleepq && s'.threads == s.threads[t := th.(interrupt := true)])
  }

  lemma InterruptKept(s: State, t: Tid)
    requires Inv(s) && Enabled(s, Interrupt(t))
    ensures InterruptPromise(s, Apply(s, Interrupt(t)), t)
  {
    hide CauseOk, CallOk, MutexesOk, CondsOk, ReqsOk, CountsOk, HoldersOk;
    assert ThreadOk(s, RunOf(s.current), t);
    assert [] + [Interrupted] == [Interrupted];
    assert !s.threads[t].onSleepq ==> s.sleepq - {t} == s.sleepq;
  }

  // ----- the idle loop

  /** One turn of the idle loop: a request leaves the queue exactly if something it wants is
      reported, exactly the sleepers that are not due and not woken by that still sleep, and the
      processor idles only if nobody can run. */
  ghost predicate TurnPromise(s: State, s': State, passes: seq<Ready>, now: nat) {
    && s'.lastClock == now
    && (forall r :: r in s'.ioq <==> r in s.ioq && !(r in s.reqs && ServedByAny(s.reqs[r].pds, passes)))
    && (forall t :: t in s'.sleepq <==>
          t in s.sleepq && t in s.threads && s.threads[t].due > now && !WokenByAny(s, passes, t))
    && (s'.current.Run? || (s'.current == Idle && forall t :: t in s'.threads ==> s'.threads[t].state != Runnable))
  }

  lemma ScheduleDues(s: State)
    ensures forall t :: t in s.threads ==> t in Schedule(s).threads && Schedule(s).threads[t].due == s.threads[t].due
    ensures Schedule(s).current != Native
  {
  }

  lemma IdleMeansNobody(s: State)
    requires Inv(s)
    ensures s.current == Idle ==> forall t :: t in s.threads ==> s.threads[t].state != Runnable
    ensures forall t :: t in s.sleepq ==> t in s.threads
  {
    forall t | t in s.threads && s.current == Idle
      ensures s.threads[t].state != Runnable
    {
      assert ThreadOk(s, None, t);
    }
  }

  lemma SleepersFlagged(s: State)
    requires InvAt(s, None)
    ensures forall t :: t in s.sleepq <==> t in s.threads && s.threads[t].onSleepq
  {
    forall t | t in s.threads
      ensures t in s.sleepq <==> s.threads[t].onSleepq
    {
      assert ThreadOk(s, None, t);
    }
  }

  /** Who still sleeps after the dispatch. */
  lemma DispatchSleepers(s: State, passes: seq<Ready>)
    requires InvAt(s, None) && InvAt(Dispatch(s, passes), None)
    ensures AllDone(s, Dispatch(s, passes), passes)
    ensures var s1 := Dispatch(s, passes);
            forall t :: t in s1.sleepq <==> t in s.sleepq && t in s.threads && !WokenByAny(s, passes, t)
    ensures forall t :: t in Dispatch(s, passes).sleepq ==> t in s.threads && Dispatch(s, passes).threads[t].due == s.threads[t].due
  {
    var s1 := Dispatch(s, passes);
    InvQueued(s);
    DispatchSpec(s, passes);
    SleepersFlagged(s);
    SleepersFlagged(s1);
    hide InvAt, WokenByAny, Dispatch;
  }

  lemma {:induction false} ClockIoq(s: State, order: seq<Tid>)
    ensures ExpireAll(s, order).ioq == s.ioq
    decreases order
  {
    if order == [] {
    } else {
      ClockIoq(if order[0] in s.threads then Requeue(s, order[0], Timer) else s, order[1..]);
    }
  }

  lemma SafeTurn(s: State, passes: seq<Ready>)
    requires Inv(s) && !s.current.Run? && (s.current == Native ==> SafeDispatch(s, passes))
    ensures InvAt(s, None) && SafeDispatch(s, passes)
  {
    if s.current == Idle {
      EmptyRunqWaiting(s);
      WaitingSafe(s, passes);
    }
  }

  /** The clock itself does not matter to the order. */
  lemma SameExpiryOrder(s: State, now: nat, order: seq<Tid>)
    ensures ExpiryOrder(s.(lastClock := now), now, order) <==> ExpiryOrder(s, now, order)
  {
  }

  lemma TurnKept(s: State, passes: seq<Ready>, now: nat, order: seq<Tid>)
    requires Inv(s) && Enabled(s, IdleTurn(passes, now, order)) && Benign(s, IdleTurn(passes, now, order))
    ensures TurnPromise(s, Apply(s, IdleTurn(passes, now, order)), passes, now)
  {
    hide Inv, InvAt, Dispatch, SafeDispatch, ExpireAll, Schedule, ServedByAny, WokenByAny, WokenByIo, ExpiryOrder;
    var s1, s' := Dispatch(s, passes), Apply(s, IdleTurn(passes, now, order));
    SafeTurn(s, passes);
    DispatchInv(s, passes);
    DispatchSleepers(s, passes);
    ClockInv(s1, now);
    var s2 := s1.(lastClock := now);
    SameExpiryOrder(s1, now, order);
    ClockSpec(s2, now, order);
    ClockDues(s2, order);
    ClockIoq(s2, order);
    StepInv(s, IdleTurn(passes, now, order));
    ScheduleFrame(ExpireAll(s2, order));
    ScheduleDues(ExpireAll(s2, order));
    IdleMeansNobody(s');
  }
}
