/** What every step of the scheduler keeps. */
module SchedulerInv {
  import opened Lists
  import opened Threads
  import opened PollSet
  import opened Scheduler

  // ----- the invariant

  /** A blocked thread is inside the call that blocked it. */
  predicate CallOfState(st: RunState, call: Call) {
    match st
    case IoWait => call.Polling?
    case LockWait => call.Locking?
    case CondWait => call.Waiting?
    case Sleeping => call == Napping
    case Suspended => call == Napping
    case _ => false
  }

  ghost predicate AnyReady(pds: seq<PollFd>) {
    exists pd :: pd in pds && pd.revents
  }

  /** What the one cause that re-queued `t` says about the flags, the mutex and the request. */
  ghost predicate CauseOk(s: State, t: Tid, th: Thr, cause: Cause) {
    match th.call
    case NoCall => true
    case Locking(m) =>
      && m in s.mutexes && !th.timedout
      && cause in {Handoff, Interrupted} && (cause == Handoff <==> s.mutexes[m].owner == Some(t))
      && (cause == Interrupted ==> th.interrupt)
    case Waiting(c) =>
      && cause in {Timer, Signal, Interrupted} && th.timedout == (cause == Timer)
      && (cause == Interrupted ==> th.interrupt)
    case Polling(r) =>
      && r in s.reqs && !th.timedout && cause in {Timer, IoReady, Interrupted}
      && s.reqs[r].onIoq == (cause != IoReady) && (cause == Interrupted ==> th.interrupt)
      && (cause == IoReady ==> AnyReady(s.reqs[r].pds))
    case Napping =>
      !th.timedout && cause in {Timer, Interrupted} && (cause == Interrupted ==> th.interrupt)
  }

  /** The place that remembers the pending call of `t`. */
  ghost predicate CallOk(s: State, t: Tid, call: Call) {
    match call
    case NoCall => true
    case Locking(m) => m in s.mutexes && t in s.mutexes[m].waitq
    case Waiting(c) => c in s.conds && t in s.conds[c]
    case Polling(r) => r in s.reqs && s.reqs[r].tid == t
    case Napping => true
  }

  /** `run` is the thread that executes, if any. */
  ghost predicate ThreadOk(s: State, run: Option<Tid>, t: Tid)
    requires t in s.threads
  {
    var th := s.threads[t];
    && (t in s.runq <==> th.state == Runnable)
    && (run == Some(t) <==> th.state == Running)
    && (t in s.sleepq <==> th.onSleepq)
    && (th.onSleepq ==> th.state in {IoWait, CondWait, Sleeping})
    && CallOk(s, t, th.call)
    && (th.call == NoCall ==> !Blocked(th.state) && !th.timedout)
    && (th.state == Zombie ==> th.call == NoCall)
    && (Blocked(th.state) ==>
          && CallOfState(th.state, th.call) && th.causes == [] && !th.interrupt && !th.timedout
          && (th.call.Polling? ==> s.reqs[th.call.r].onIoq)
          && (th.call.Locking? ==> s.mutexes[th.call.m].owner != Some(t)))
    && (th.call != NoCall && !Blocked(th.state) ==> |th.causes| == 1 && CauseOk(s, t, th, th.causes[0]))
  }

  ghost predicate ThreadsOk(s: State, run: Option<Tid>) {
    && (forall t {:trigger ThreadOk(s, run, t)} :: t in s.threads ==> ThreadOk(s, run, t))
    && (run.Some? ==> run.value in s.threads)
  }

  ghost predicate QueuesOk(s: State) {
    && NoDup(s.runq)
    && (forall t :: t in s.runq ==> t in s.threads)
    && (forall t :: t in s.sleepq ==> t in s.threads)
  }

  ghost predicate MutexOk(s: State, m: Mid)
    requires m in s.mutexes
  {
    var mu := s.mutexes[m];
    && NoDup(mu.waitq)
    && (forall t :: t in mu.waitq ==> t in s.threads && s.threads[t].call == Locking(m))
    && (mu.owner == None ==> forall t :: t in mu.waitq ==> s.threads[t].state != LockWait)
    && (mu.owner.Some? ==> mu.owner.value in s.threads)
  }

  ghost predicate MutexesOk(s: State) {
    forall m {:trigger MutexOk(s, m)} :: m in s.mutexes ==> MutexOk(s, m)
  }

  ghost predicate CondOk(s: State, c: Cid)
    requires c in s.conds
  {
    NoDup(s.conds[c]) && forall t :: t in s.conds[c] ==> t in s.threads && s.threads[t].call == Waiting(c)
  }

  ghost predicate CondsOk(s: State) {
    forall c {:trigger CondOk(s, c)} :: c in s.conds ==> CondOk(s, c)
  }

  /** A request is on the I/O queue until it is unregistered, which happens once. */
  ghost predicate ReqsOk(s: State) {
    && NoDup(s.ioq) && NoDup(s.unregistered)
    && (forall r :: r in s.ioq ==> r in s.reqs)
    && (forall r :: r in s.unregistered ==> r in s.reqs)
    && (forall r :: r in s.reqs ==> (s.reqs[r].onIoq <==> r in s.ioq) && (r in s.ioq <==> r !in s.unregistered))
    && (forall r :: r in s.ioq ==> s.reqs[r].tid in s.threads && s.threads[s.reqs[r].tid].call == Polling(r))
  }

  /** The number of entries of outstanding requests that name `fd` for `k`. */
  ghost function Outstanding(q: seq<Rid>, reqs: map<Rid, Request>, k: Kind, fd: int): nat {
    if q == [] then 0
    else (if q[0] in reqs then Matches(reqs[q[0]].pds, k, fd) else 0) + Outstanding(q[1..], reqs, k, fd)
  }

  ghost predicate CountsOk(ev: EventSys, q: seq<Rid>, reqs: map<Rid, Request>) {
    && PositiveOnly(ev)
    && (forall r :: r in q && r in reqs ==> Grouped(ev, reqs[r].pds))
    && (forall k, fd :: Get(ev, k, fd) == Outstanding(q, reqs, k, fd))
  }

  /** Whether `t` is between a successful acquire of `m` and its unlock. */
  ghost predicate Holds(log: seq<Event>, t: Tid, m: Mid) {
    if log == [] then false
    else
      var e, rest := log[|log| - 1], log[..|log| - 1];
      if e.t == t && e.op in {LockOp(m), TryLockOp(m)} && e.ret.Ok? then true
      else if e.t == t && e.op == UnlockOp(m) && e.ret.Ok? then false
      else Holds(rest, t, m)
  }

  ghost predicate HoldersOk(s: State) {
    forall t: Tid, m: Mid :: Holds(s.log, t, m) ==> m in s.mutexes && s.mutexes[m].owner == Some(t)
  }

  /** The invariant while `run` executes, or between two threads if it is `None`. */
  ghost predicate InvAt(s: State, run: Option<Tid>) {
    && ThreadsOk(s, run) && QueuesOk(s) && MutexesOk(s) && CondsOk(s) && ReqsOk(s)
    && CountsOk(s.ev, s.ioq, s.reqs) && HoldersOk(s)
  }

  function RunOf(c: Current): Option<Tid> {
    if c.Run? then Some(c.t) else None
  }

  ghost predicate Inv(s: State) {
    InvAt(s, RunOf(s.current)) && (s.current == Idle ==> s.runq == [])
  }

  // ----- what a step leaves alone

  /** No thread inside `st_mutex_lock` leaves it or goes back to waiting. */
  ghost predicate KeepsLockers(s: State, s': State) {
    forall t :: t in s.threads && s.threads[t].call.Locking? ==>
      && t in s'.threads && s'.threads[t].call == s.threads[t].call
      && (s'.threads[t].state == LockWait ==> s.threads[t].state == LockWait)
  }

  ghost predicate KeepsWaiters(s: State, s': State) {
    forall t :: t in s.threads && s.threads[t].call.Waiting? ==>
      t in s'.threads && s'.threads[t].call == s.threads[t].call
  }

  ghost predicate KeepsPollers(s: State, s': State) {
    forall t :: t in s.threads && s.threads[t].call.Polling? ==>
      t in s'.threads && s'.threads[t].call == s.threads[t].call
  }

  lemma MutexFrame(s: State, s': State, m: Mid)
    requires MutexesOk(s) && KeepsLockers(s, s') && s.threads.Keys <= s'.threads.Keys
    requires m in s.mutexes && m in s'.mutexes && s'.mutexes[m] == s.mutexes[m]
    ensures MutexOk(s', m)
  {
    assert MutexOk(s, m);
  }

  lemma MutexesFrame(s: State, s': State)
    requires MutexesOk(s) && KeepsLockers(s, s') && s.threads.Keys <= s'.threads.Keys && s'.mutexes == s.mutexes
    ensures MutexesOk(s')
  {
    forall m | m in s'.mutexes
      ensures MutexOk(s', m)
    {
      MutexFrame(s, s', m);
    }
  }

  lemma CondsFrame(s: State, s': State)
    requires CondsOk(s) && KeepsWaiters(s, s') && s'.conds == s.conds
    ensures CondsOk(s')
  {
    forall c | c in s'.conds
      ensures CondOk(s', c)
    {
      assert CondOk(s, c);
    }
  }

  lemma ReqsFrame(s: State, s': State)
    requires ReqsOk(s) && KeepsPollers(s, s')
    requires s'.reqs == s.reqs && s'.ioq == s.ioq && s'.unregistered == s.unregistered
    ensures ReqsOk(s')
  {
  }

  /** Everything but the threads and the run and sleep queues is as before. */
  ghost predicate SameResources(s: State, s': State) {
    && s'.mutexes == s.mutexes && s'.conds == s.conds && s'.log == s.log
    && s'.reqs == s.reqs && s'.ioq == s.ioq && s'.unregistered == s.unregistered && s'.ev == s.ev
  }

  lemma ResourcesFrame(s: State, run: Option<Tid>, s': State, run': Option<Tid>)
    requires InvAt(s, run) && SameResources(s, s') && s.threads.Keys <= s'.threads.Keys
    requires KeepsLockers(s, s') && KeepsWaiters(s, s') && KeepsPollers(s, s')
    requires ThreadsOk(s', run') && QueuesOk(s')
    ensures InvAt(s', run')
  {
    MutexesFrame(s, s');
    CondsFrame(s, s');
    ReqsFrame(s, s');
  }

  lemma HoldsAppend(log: seq<Event>, e: Event, t: Tid, m: Mid)
    ensures Holds(log + [e], t, m) ==
            if e.t == t && e.op in {LockOp(m), TryLockOp(m)} && e.ret.Ok? then true
            else if e.t == t && e.op == UnlockOp(m) && e.ret.Ok? then false
            else Holds(log, t, m)
  {
    assert (log + [e])[..|log|] == log;
  }

  /** An event that is not a successful unlock, and is a successful acquire only by the owner. */
  ghost predicate HonestEvent(s: State, me: Tid, op: Op, ret: Ret) {
    ret.Ok? ==>
      match op
      case LockOp(m) => m in s.mutexes && s.mutexes[m].owner == Some(me)
      case TryLockOp(m) => m in s.mutexes && s.mutexes[m].owner == Some(me)
      case UnlockOp(m) => false
      case _ => true
  }

  lemma HoldersLogged(s: State, me: Tid, op: Op, ret: Ret)
    requires HoldersOk(s) && HonestEvent(s, me, op, ret)
    ensures HoldersOk(Logged(s, me, op, ret))
  {
    forall t: Tid, m: Mid | Holds(Logged(s, me, op, ret).log, t, m)
      ensures m in s.mutexes && s.mutexes[m].owner == Some(t)
    {
      HoldsAppend(s.log, Event(me, op, ret), t, m);
    }
  }

  /** The log is only a record. */
  lemma LoggedInv(s: State, run: Option<Tid>, me: Tid, op: Op, ret: Ret)
    requires InvAt(s, run) && HonestEvent(s, me, op, ret)
    ensures InvAt(Logged(s, me, op, ret), run)
  {
    var s' := Logged(s, me, op, ret);
    HoldersLogged(s, me, op, ret);
    forall t | t in s'.threads
      ensures ThreadOk(s', run, t)
    {
      assert ThreadOk(s, run, t);
    }
    MutexesFrame(s, s');
    CondsFrame(s, s');
  }

  // ----- steps

  lemma InitInv(ms: set<Mid>, cs: set<Cid>)
    ensures Inv(Init(ms, cs))
  {
    var s := Init(ms, cs);
    assert MutexesOk(s);
    assert CondsOk(s);
  }

  /** Everybody inside a call stays there, and nobody goes back to waiting for a mutex. */
  ghost predicate KeepsCalls(s: State, s': State) {
    KeepsLockers(s, s') && KeepsWaiters(s, s') && KeepsPollers(s, s') && s.threads.Keys <= s'.threads.Keys
  }

  lemma KeepsFrame(s: State, run: Option<Tid>, s': State, run': Option<Tid>)
    requires InvAt(s, run) && SameResources(s, s') && KeepsCalls(s, s') && ThreadsOk(s', run') && QueuesOk(s')
    ensures InvAt(s', run')
  {
    hide InvAt, ThreadsOk, QueuesOk, SameResources;
    ResourcesFrame(s, run, s', run');
  }

  /** With nobody to run. */
  lemma IdleThreads(s: State)
    requires ThreadsOk(s, None) && QueuesOk(s)
    ensures var s' := s.(current := Idle); ThreadsOk(s', None) && QueuesOk(s')
  {
    forall x | x in s.threads
      ensures ThreadOk(s.(current := Idle), None, x)
    {
      assert ThreadOk(s, None, x);
    }
  }

  /** The head of the run queue runs. */
  lemma HeadThreads(s: State)
    requires ThreadsOk(s, None) && QueuesOk(s) && s.runq != [] && (s.current.Run? ==> s.current.t !in s.runq)
    ensures var s', t := Schedule(s), s.runq[0];
            && s'.current == Run(t) && s'.runq == s.runq[1..]
            && t in s.threads && s'.threads == s.threads[t := s.threads[t].(state := Running)]
            && ThreadsOk(s', Some(t)) && QueuesOk(s')
  {
    var s', t := Schedule(s), s.runq[0];
    assert ThreadOk(s, None, t);
    assert forall x :: x in s.runq <==> x == t || x in s.runq[1..];
    assert t !in s.runq[1..];
    forall x | x in s'.threads
      ensures ThreadOk(s', Some(t), x)
    {
      assert ThreadOk(s, None, x);
    }
  }

  /** `_st_vp_schedule` never drops the thread it takes, never finds the caller on the run
      queue, and reaches the idle fiber only when the run queue is empty. */
  lemma ScheduleInv(s: State)
    requires InvAt(s, None) && (s.current.Run? ==> s.current.t !in s.runq)
    ensures Inv(Schedule(s))
    ensures s.runq != [] ==> Schedule(s).current == Run(s.runq[0]) && Schedule(s).runq == s.runq[1..]
  {
    hide ThreadsOk, QueuesOk, MutexesOk, CondsOk, ReqsOk, CountsOk, HoldersOk;
    if s.runq == [] {
      IdleThreads(s);
      KeepsFrame(s, None, s.(current := Idle), None);
    } else {
      HeadThreads(s);
      KeepsFrame(s, None, Schedule(s), Some(s.runq[0]));
    }
  }

  lemma RequeueThreads(s: State, run: Option<Tid>, t: Tid, cause: Cause)
    requires ThreadsOk(s, run) && QueuesOk(s) && t in s.threads && Blocked(s.threads[t].state)
    requires cause in {Timer, Interrupted} || (cause == Signal && s.threads[t].state == CondWait)
    requires cause == Timer ==> s.threads[t].state != LockWait && s.threads[t].onSleepq
    ensures ThreadsOk(Requeue(s, t, cause), run) && QueuesOk(Requeue(s, t, cause))
  {
    var s' := Requeue(s, t, cause);
    assert ThreadOk(s, run, t);
    AppendNoDup(s.runq, t);
    forall x | x in s'.threads
      ensures ThreadOk(s', run, x)
    {
      assert ThreadOk(s, run, x);
    }
  }

  /** A wake-up by timer, signal or interrupt. */
  lemma RequeueInv(s: State, run: Option<Tid>, t: Tid, cause: Cause)
    requires InvAt(s, run) && t in s.threads && Blocked(s.threads[t].state)
    requires cause in {Timer, Interrupted} || (cause == Signal && s.threads[t].state == CondWait)
    requires cause == Timer ==> s.threads[t].state != LockWait && s.threads[t].onSleepq
    ensures InvAt(Requeue(s, t, cause), run)
  {
    var s' := Requeue(s, t, cause);
    RequeueThreads(s, run, t, cause);
    hide ThreadsOk;
    ResourcesFrame(s, run, s', run);
  }

  lemma CreateThreads(s: State, run: Option<Tid>, t: Tid)
    requires ThreadsOk(s, run) && QueuesOk(s) && t !in s.threads
    ensures var s' := SetThr(s, t, Thr(Runnable, false, false, false, 0, NoCall, [])).(runq := s.runq + [t]);
            ThreadsOk(s', run) && QueuesOk(s')
  {
    var s' := SetThr(s, t, Thr(Runnable, false, false, false, 0, NoCall, [])).(runq := s.runq + [t]);
    AppendNoDup(s.runq, t);
    forall x | x in s'.threads
      ensures ThreadOk(s', run, x)
    {
      assert x != t ==> ThreadOk(s, run, x);
    }
  }

  lemma CreateInv(s: State, t: Tid)
    requires Inv(s) && Enabled(s, Create(t))
    ensures Inv(Apply(s, Create(t)))
  {
    hide ThreadsOk, QueuesOk, MutexesOk, CondsOk, ReqsOk, CountsOk, HoldersOk;
    CreateThreads(s, RunOf(s.current), t);
    KeepsFrame(s, RunOf(s.current), Apply(s, Create(t)), RunOf(s.current));
  }

  /** Changing the interrupt flag of a thread that is not blocked, upward or outside any call. */
  lemma FlagInv(s: State, run: Option<Tid>, t: Tid, flag: bool)
    requires InvAt(s, run) && t in s.threads && !Blocked(s.threads[t].state)
    requires flag || s.threads[t].call == NoCall
    ensures InvAt(SetThr(s, t, s.threads[t].(interrupt := flag)), run)
  {
    hide MutexesOk, CondsOk, ReqsOk, CountsOk, HoldersOk;
    var s' := SetThr(s, t, s.threads[t].(interrupt := flag));
    forall x | x in s'.threads
      ensures ThreadOk(s', run, x)
    {
      assert ThreadOk(s, run, x);
    }
    ResourcesFrame(s, run, s', run);
  }

  lemma InterruptInv(s: State, t: Tid)
    requires Inv(s) && Enabled(s, Interrupt(t))
    ensures Inv(Apply(s, Interrupt(t)))
  {
    var run := RunOf(s.current);
    assert ThreadOk(s, run, t);
    if Blocked(s.threads[t].state) {
      RequeueInv(s, run, t, Interrupted);
    } else if s.threads[t].state != Zombie {
      FlagInv(s, run, t, true);
    }
  }

  lemma ExitThreads(s: State, me: Tid)
    requires ThreadsOk(s, Some(me)) && QueuesOk(s) && s.threads[me].call == NoCall
    ensures var s' := SetThr(s, me, s.threads[me].(state := Zombie)).(current := Native);
            ThreadsOk(s', None) && QueuesOk(s')
  {
    var s' := SetThr(s, me, s.threads[me].(state := Zombie)).(current := Native);
    assert ThreadOk(s, Some(me), me);
    forall x | x in s'.threads
      ensures ThreadOk(s', None, x)
    {
      assert ThreadOk(s, Some(me), x);
    }
  }

  lemma ExitInv(s: State)
    requires Inv(s) && Enabled(s, Exit)
    ensures Inv(Apply(s, Exit))
  {
    hide ThreadsOk, QueuesOk, MutexesOk, CondsOk, ReqsOk, CountsOk, HoldersOk;
    ExitThreads(s, s.current.t);
    KeepsFrame(s, Some(s.current.t), Apply(s, Exit), None);
  }

  lemma TakeThreads(s: State, run: Option<Tid>, me: Tid, m: Mid)
    requires ThreadsOk(s, run) && QueuesOk(s) && me in s.threads && s.threads[me].call == NoCall
    requires m in s.mutexes && s.mutexes[m].owner == None
    ensures var s' := SetMutex(s, m, s.mutexes[m].(owner := Some(me))); ThreadsOk(s', run) && QueuesOk(s')
  {
    var s' := SetMutex(s, m, s.mutexes[m].(owner := Some(me)));
    forall x | x in s'.threads
      ensures ThreadOk(s', run, x)
    {
      assert ThreadOk(s, run, x);
    }
  }

  lemma TakeMutexes(s: State, me: Tid, m: Mid)
    requires MutexesOk(s) && me in s.threads && m in s.mutexes && s.mutexes[m].owner == None
    ensures MutexesOk(SetMutex(s, m, s.mutexes[m].(owner := Some(me))))
  {
    var s' := SetMutex(s, m, s.mutexes[m].(owner := Some(me)));
    assert MutexOk(s, m);
    forall n | n in s'.mutexes
      ensures MutexOk(s', n)
    {
      assert MutexOk(s, n);
    }
  }

  /** A thread outside any call takes a free mutex. */
  lemma TakeInv(s: State, run: Option<Tid>, me: Tid, m: Mid)
    requires InvAt(s, run) && me in s.threads && s.threads[me].call == NoCall
    requires m in s.mutexes && s.mutexes[m].owner == None
    ensures InvAt(SetMutex(s, m, s.mutexes[m].(owner := Some(me))), run)
  {
    var s' := SetMutex(s, m, s.mutexes[m].(owner := Some(me)));
    TakeThreads(s, run, me, m);
    TakeMutexes(s, me, m);
    hide ThreadsOk, QueuesOk, MutexesOk, CondsOk, ReqsOk, CountsOk;
    CondsFrame(s, s');
    ReqsFrame(s, s');
  }

  /** A running thread that blocks is on no run queue, so `_st_vp_schedule` does not meet it. */
  lemma BlockedSchedule(s: State, me: Tid)
    requires InvAt(s, None) && s.current == Run(me) && me in s.threads && Blocked(s.threads[me].state)
    ensures Inv(Schedule(s))
  {
    assert ThreadOk(s, None, me);
    ScheduleInv(s);
  }

  function LockBlock(s: State, me: Tid, m: Mid): State
    requires me in s.threads && m in s.mutexes
  {
    SetMutex(Block(s, me, LockWait, Locking(m)), m, s.mutexes[m].(waitq := s.mutexes[m].waitq + [me]))
  }

  lemma LockBlockThreads(s: State, me: Tid, m: Mid)
    requires ThreadsOk(s, Some(me)) && QueuesOk(s) && s.threads[me].call == NoCall && !s.threads[me].interrupt
    requires m in s.mutexes && s.mutexes[m].owner != Some(me)
    ensures ThreadsOk(LockBlock(s, me, m), None) && QueuesOk(LockBlock(s, me, m))
  {
    var s' := LockBlock(s, me, m);
    assert ThreadOk(s, Some(me), me);
    forall x | x in s'.threads
      ensures ThreadOk(s', None, x)
    {
      assert ThreadOk(s, Some(me), x);
    }
  }

  lemma LockBlockInv(s: State, me: Tid, m: Mid)
    requires InvAt(s, Some(me)) && me in s.threads && s.threads[me].call == NoCall && !s.threads[me].interrupt
    requires m in s.mutexes && s.mutexes[m].owner.Some? && s.mutexes[m].owner != Some(me)
    ensures InvAt(LockBlock(s, me, m), None)
  {
    var mu, s' := s.mutexes[m], LockBlock(s, me, m);
    LockBlockThreads(s, me, m);
    hide ThreadsOk;
    assert MutexOk(s, m);
    AppendNoDup(mu.waitq, me);
    forall n | n in s'.mutexes
      ensures MutexOk(s', n)
    {
      assert MutexOk(s, n);
    }
    CondsFrame(s, s');
    ReqsFrame(s, s');
  }

  lemma LockInv(s: State, m: Mid)
    requires Inv(s) && Enabled(s, Lock(m))
    ensures Inv(Apply(s, Lock(m)))
  {
    var me, run, mu := s.current.t, RunOf(s.current), s.mutexes[m];
    assert ThreadOk(s, run, me);
    if s.threads[me].interrupt {
      FlagInv(s, run, me, false);
      LoggedInv(ClearInterrupt(s, me), run, me, LockOp(m), Err(EINTR));
    } else if mu.owner == None {
      TakeInv(s, run, me, m);
      LoggedInv(SetMutex(s, m, mu.(owner := Some(me))), run, me, LockOp(m), Ok(0));
    } else if mu.owner == Some(me) {
      LoggedInv(s, run, me, LockOp(m), Err(EDEADLK));
    } else {
      LockBlockInv(s, me, m);
      BlockedSchedule(LockBlock(s, me, m), me);
    }
  }

  lemma TryLockInv(s: State, m: Mid)
    requires Inv(s) && Enabled(s, TryLock(m))
    ensures Inv(Apply(s, TryLock(m)))
  {
    var me, run, mu := s.current.t, RunOf(s.current), s.mutexes[m];
    if mu.owner != None {
      LoggedInv(s, run, me, TryLockOp(m), Err(EBUSY));
    } else {
      TakeInv(s, run, me, m);
      LoggedInv(SetMutex(s, m, mu.(owner := Some(me))), run, me, TryLockOp(m), Ok(0));
    }
  }

  /** After a successful unlock nobody but the new owner can be the holder. */
  lemma UnlockHolders(s: State, s': State, me: Tid, m: Mid)
    requires HoldersOk(s) && m in s.mutexes && s.mutexes[m].owner == Some(me)
    requires s'.log == s.log + [Event(me, UnlockOp(m), Ok(0))]
    requires s'.mutexes.Keys == s.mutexes.Keys && forall n :: n in s.mutexes && n != m ==> s'.mutexes[n] == s.mutexes[n]
    ensures HoldersOk(s')
  {
    forall t: Tid, n: Mid | Holds(s'.log, t, n)
      ensures n in s'.mutexes && s'.mutexes[n].owner == Some(t)
    {
      HoldsAppend(s.log, Event(me, UnlockOp(m), Ok(0)), t, n);
    }
  }

  lemma FreeInv(s: State, run: Option<Tid>, me: Tid, m: Mid, s': State)
    requires InvAt(s, run) && m in s.mutexes && s.mutexes[m].owner == Some(me)
    requires run == Some(me) && s.threads[me].call == NoCall
    requires FirstIn(s.threads, s.mutexes[m].waitq, LockWait) == |s.mutexes[m].waitq|
    requires s' == Logged(SetMutex(s, m, s.mutexes[m].(owner := None)), me, UnlockOp(m), Ok(0)) && HoldersOk(s')
    ensures InvAt(s', run)
  {
    forall x | x in s'.threads
      ensures ThreadOk(s', run, x)
    {
      assert ThreadOk(s, run, x);
    }
    forall n | n in s'.mutexes
      ensures MutexOk(s', n)
    {
      assert MutexOk(s, n);
    }
    CondsFrame(s, s');
    ReqsFrame(s, s');
  }

  lemma HandOverThreads(s: State, me: Tid, m: Mid, w: Tid, s': State)
    requires ThreadsOk(s, Some(me)) && QueuesOk(s) && m in s.mutexes && s.mutexes[m].owner == Some(me)
    requires s.threads[me].call == NoCall && w in s.threads && s.threads[w].state == LockWait && s.threads[w].call == Locking(m)
    requires s' == Logged(HandOver(s, m, w), me, UnlockOp(m), Ok(0))
    ensures ThreadsOk(s', Some(me)) && QueuesOk(s')
  {
    assert ThreadOk(s, Some(me), w);
    AppendNoDup(s.runq, w);
    forall x | x in s'.threads
      ensures ThreadOk(s', Some(me), x)
    {
      assert ThreadOk(s, Some(me), x);
    }
  }

  lemma HandOverInv(s: State, run: Option<Tid>, me: Tid, m: Mid, w: Tid, s': State)
    requires InvAt(s, run) && m in s.mutexes && s.mutexes[m].owner == Some(me)
    requires run == Some(me) && s.threads[me].call == NoCall
    requires w in s.mutexes[m].waitq && w in s.threads && s.threads[w].state == LockWait
    requires s' == Logged(HandOver(s, m, w), me, UnlockOp(m), Ok(0)) && HoldersOk(s')
    ensures InvAt(s', run)
  {
    assert MutexOk(s, m);
    HandOverThreads(s, me, m, w, s');
    hide ThreadsOk;
    forall n | n in s'.mutexes
      ensures MutexOk(s', n)
    {
      assert MutexOk(s, n);
    }
    CondsFrame(s, s');
    ReqsFrame(s, s');
  }

  lemma UnlockInv(s: State, m: Mid)
    requires Inv(s) && Enabled(s, Unlock(m))
    ensures Inv(Apply(s, Unlock(m)))
  {
    var me, run, mu, s' := s.current.t, RunOf(s.current), s.mutexes[m], Apply(s, Unlock(m));
    if mu.owner != Some(me) {
      LoggedInv(s, run, me, UnlockOp(m), Err(EPERM));
    } else {
      UnlockHolders(s, s', me, m);
      if FirstIn(s.threads, mu.waitq, LockWait) == |mu.waitq| {
        FreeInv(s, run, me, m, s');
      } else {
        HandOverInv(s, run, me, m, mu.waitq[FirstIn(s.threads, mu.waitq, LockWait)], s');
      }
    }
  }

  lemma WaitBlockThreads(s: State, me: Tid, c: Cid, s': State)
    requires ThreadsOk(s, Some(me)) && QueuesOk(s) && s.threads[me].call == NoCall && !s.threads[me].interrupt && c in s.conds
    requires s' == Block(s, me, CondWait, Waiting(c)).(conds := s.conds[c := s.conds[c] + [me]])
    ensures ThreadsOk(s', None) && QueuesOk(s')
  {
    assert ThreadOk(s, Some(me), me);
    forall x | x in s'.threads
      ensures ThreadOk(s', None, x)
    {
      assert ThreadOk(s, Some(me), x);
    }
  }

  lemma WaitBlockConds(s: State, me: Tid, c: Cid, s': State)
    requires CondsOk(s) && me in s.threads && s.threads[me].call == NoCall && c in s.conds
    requires s' == Block(s, me, CondWait, Waiting(c)).(conds := s.conds[c := s.conds[c] + [me]])
    ensures CondsOk(s')
  {
    assert CondOk(s, c);
    AppendNoDup(s.conds[c], me);
    forall d | d in s'.conds
      ensures CondOk(s', d)
    {
      assert CondOk(s, d);
    }
  }

  lemma WaitBlockInv(s: State, me: Tid, c: Cid, s': State)
    requires InvAt(s, Some(me)) && s.threads[me].call == NoCall && !s.threads[me].interrupt && c in s.conds
    requires s' == Block(s, me, CondWait, Waiting(c)).(conds := s.conds[c := s.conds[c] + [me]])
    ensures InvAt(s', None)
  {
    WaitBlockThreads(s, me, c, s');
    WaitBlockConds(s, me, c, s');
    hide ThreadsOk, QueuesOk, MutexesOk, CondsOk, ReqsOk, CountsOk;
    MutexesFrame(s, s');
    ReqsFrame(s, s');
  }

  /** A thread that has just blocked may join the sleep queue, unless it waits for a mutex. */
  lemma AddSleepInv(s: State, me: Tid, timeout: nat)
    requires InvAt(s, None) && me in s.threads && s.threads[me].state in {IoWait, CondWait, Sleeping}
    ensures InvAt(AddSleep(s, me, timeout), None)
  {
    hide MutexesOk, CondsOk, ReqsOk, CountsOk, HoldersOk;
    var s' := AddSleep(s, me, timeout);
    forall x | x in s'.threads
      ensures ThreadOk(s', None, x)
    {
      assert ThreadOk(s, None, x);
    }
    ResourcesFrame(s, None, s', None);
  }

  lemma WaitInv(s: State, c: Cid, timeout: Option<nat>)
    requires Inv(s) && Enabled(s, Wait(c, timeout))
    ensures Inv(Apply(s, Wait(c, timeout)))
  {
    var me, run := s.current.t, RunOf(s.current);
    assert ThreadOk(s, run, me);
    if s.threads[me].interrupt {
      FlagInv(s, run, me, false);
      LoggedInv(ClearInterrupt(s, me), run, me, WaitOp(c), Err(EINTR));
    } else {
      var s1 := Block(s, me, CondWait, Waiting(c)).(conds := s.conds[c := s.conds[c] + [me]]);
      WaitBlockInv(s, me, c, s1);
      if timeout.Some? {
        AddSleepInv(s1, me, timeout.value);
        BlockedSchedule(AddSleep(s1, me, timeout.value), me);
      } else {
        BlockedSchedule(s1, me);
      }
    }
  }

  lemma NapInv(s: State, me: Tid, st: RunState)
    requires InvAt(s, Some(me)) && s.threads[me].call == NoCall && !s.threads[me].interrupt
    requires st in {Sleeping, Suspended}
    ensures InvAt(Block(s, me, st, Napping), None)
  {
    hide MutexesOk, CondsOk, ReqsOk, CountsOk, HoldersOk;
    var s' := Block(s, me, st, Napping);
    assert ThreadOk(s, Some(me), me);
    forall x | x in s'.threads
      ensures ThreadOk(s', None, x)
    {
      assert ThreadOk(s, Some(me), x);
    }
    ResourcesFrame(s, Some(me), s', None);
  }

  lemma SleepInv(s: State, usecs: Option<nat>)
    requires Inv(s) && Enabled(s, Sleep(usecs))
    ensures Inv(Apply(s, Sleep(usecs)))
  {
    var me, run := s.current.t, RunOf(s.current);
    assert ThreadOk(s, run, me);
    if s.threads[me].interrupt {
      FlagInv(s, run, me, false);
      LoggedInv(ClearInterrupt(s, me), run, me, SleepOp, Err(EINTR));
    } else if usecs.Some? {
      NapInv(s, me, Sleeping);
      AddSleepInv(Block(s, me, Sleeping, Napping), me, usecs.value);
      BlockedSchedule(AddSleep(Block(s, me, Sleeping, Napping), me, usecs.value), me);
    } else {
      NapInv(s, me, Suspended);
      BlockedSchedule(Block(s, me, Suspended, Napping), me);
    }
  }

  lemma {:induction false} NotifyInv(s: State, run: Option<Tid>, q: seq<Tid>, broadcast: bool)
    requires InvAt(s, run)
    ensures InvAt(NotifyFrom(s, q, broadcast), run)
    decreases q
  {
    if q == [] {
    } else {
      if q[0] in s.threads && s.threads[q[0]].state == CondWait {
        RequeueInv(s, run, q[0], Signal);
        if broadcast {
          NotifyInv(Requeue(s, q[0], Signal), run, q[1..], broadcast);
        }
      } else {
        NotifyInv(s, run, q[1..], broadcast);
      }
    }
  }

  // ----- the tails

  /** What `ThreadOk` looks at outside the record of `x` is the same. */
  ghost predicate SameAround(s: State, s': State, x: Tid)
    requires x in s.threads
  {
    match s.threads[x].call
    case Locking(m) =>
      && m in s.mutexes && m in s'.mutexes && s'.mutexes[m].owner == s.mutexes[m].owner
      && (x in s.mutexes[m].waitq ==> x in s'.mutexes[m].waitq)
    case Waiting(c) => c in s.conds && c in s'.conds && (x in s.conds[c] ==> x in s'.conds[c])
    case Polling(r) =>
      r in s.reqs && r in s'.reqs && s'.reqs[r] == s.reqs[r]
    case _ => true
  }

  /** The running thread leaves its call; nothing around the other threads has changed. */
  lemma LeaveThreads(s: State, me: Tid, s': State)
    requires ThreadsOk(s, Some(me)) && QueuesOk(s)
    requires s'.threads.Keys == s.threads.Keys && s'.runq == s.runq && s'.sleepq == s.sleepq
    requires forall x :: x in s.threads && x != me ==> s'.threads[x] == s.threads[x] && SameAround(s, s', x)
    requires var th, th' := s.threads[me], s'.threads[me];
             th'.call == NoCall && !th'.timedout && th'.state == th.state && th'.onSleepq == th.onSleepq
    ensures ThreadsOk(s', Some(me)) && QueuesOk(s')
  {
    assert ThreadOk(s, Some(me), me);
    forall x | x in s'.threads
      ensures ThreadOk(s', Some(me), x)
    {
      assert ThreadOk(s, Some(me), x);
    }
  }

  /** Every pending call is one that can be finished. */
  lemma CallsExist(s: State, run: Option<Tid>, x: Tid)
    requires ThreadsOk(s, run) && x in s.threads
    ensures CallOk(s, x, s.threads[x].call)
  {
    assert ThreadOk(s, run, x);
  }

  /** Nothing around the other threads changes when `me` leaves a queue. */
  lemma AroundOthers(s: State, me: Tid, s': State)
    requires ThreadsOk(s, Some(me)) && s'.threads.Keys == s.threads.Keys
    requires forall x :: x in s.threads && x != me ==> s'.threads[x] == s.threads[x]
    requires forall m :: m in s.mutexes ==>
               && m in s'.mutexes && s'.mutexes[m].owner == s.mutexes[m].owner
               && forall x :: x in s.mutexes[m].waitq && x != me ==> x in s'.mutexes[m].waitq
    requires forall c :: c in s.conds ==> c in s'.conds && forall x :: x in s.conds[c] && x != me ==> x in s'.conds[c]
    requires forall r :: r in s.reqs ==> r in s'.reqs && (s.reqs[r].tid != me ==> s'.reqs[r] == s.reqs[r])
    ensures forall x :: x in s.threads && x != me ==> SameAround(s, s', x)
  {
    forall x | x in s.threads && x != me
      ensures SameAround(s, s', x)
    {
      CallsExist(s, Some(me), x);
    }
  }

  lemma LockTailThreads(s: State, me: Tid, m: Mid)
    requires ThreadsOk(s, Some(me)) && QueuesOk(s) && MutexesOk(s) && s.threads[me].call == Locking(m) && m in s.mutexes
    ensures ThreadsOk(LockTail(s, me, m), Some(me)) && QueuesOk(LockTail(s, me, m))
  {
    assert !s.threads[me].timedout && NoDup(s.mutexes[m].waitq) by {
      assert ThreadOk(s, Some(me), me) && MutexOk(s, m);
    }
    hide ThreadsOk, QueuesOk, MutexesOk, LockRet, Remove;
    RemoveElems(s.mutexes[m].waitq, me);
    AroundOthers(s, me, LockTail(s, me, m));
    LeaveThreads(s, me, LockTail(s, me, m));
  }

  lemma LockTailMutexes(s: State, me: Tid, m: Mid)
    requires MutexesOk(s) && me in s.threads && s.threads[me].call == Locking(m) && m in s.mutexes
    ensures MutexesOk(LockTail(s, me, m))
  {
    var s' := LockTail(s, me, m);
    assert MutexOk(s, m);
    RemoveElems(s.mutexes[m].waitq, me);
    hide Remove, LockRet;
    forall n | n in s'.mutexes
      ensures MutexOk(s', n)
    {
      assert MutexOk(s, n);
    }
  }

  lemma LockTailHolders(s: State, me: Tid, m: Mid)
    requires ThreadsOk(s, Some(me)) && HoldersOk(s) && s.threads[me].call == Locking(m) && m in s.mutexes
    ensures HoldersOk(LockTail(s, me, m))
  {
    assert ThreadOk(s, Some(me), me);
    HoldersLogged(s, me, LockOp(m), LockRet(s, me, m));
  }

  /** Leaving a call: the thread is in no wait queue any more, and the result is honest. */
  lemma LockTailInv(s: State, me: Tid, m: Mid)
    requires InvAt(s, Some(me)) && s.threads[me].call == Locking(m) && m in s.mutexes
    ensures InvAt(LockTail(s, me, m), Some(me))
  {
    assert me in s.threads;
    hide ThreadsOk, QueuesOk, MutexesOk, CondsOk, ReqsOk, CountsOk, HoldersOk, Remove, LockRet;
    var s' := LockTail(s, me, m);
    LockTailThreads(s, me, m);
    LockTailMutexes(s, me, m);
    LockTailHolders(s, me, m);
    CondsFrame(s, s');
    ReqsFrame(s, s');
  }

  lemma WaitTailThreads(s: State, me: Tid, c: Cid)
    requires ThreadsOk(s, Some(me)) && QueuesOk(s) && CondsOk(s) && s.threads[me].call == Waiting(c) && c in s.conds
    ensures ThreadsOk(WaitTail(s, me, c), Some(me)) && QueuesOk(WaitTail(s, me, c))
  {
    assert NoDup(s.conds[c]) by {
      assert CondOk(s, c);
    }
    hide ThreadsOk, QueuesOk, CondsOk, WaitRet, Remove;
    RemoveElems(s.conds[c], me);
    AroundOthers(s, me, WaitTail(s, me, c));
    LeaveThreads(s, me, WaitTail(s, me, c));
  }

  lemma WaitTailConds(s: State, me: Tid, c: Cid)
    requires CondsOk(s) && me in s.threads && s.threads[me].call == Waiting(c) && c in s.conds
    ensures CondsOk(WaitTail(s, me, c))
  {
    var s' := WaitTail(s, me, c);
    assert CondOk(s, c);
    RemoveElems(s.conds[c], me);
    hide Remove, WaitRet;
    forall d | d in s'.conds
      ensures CondOk(s', d)
    {
      assert CondOk(s, d);
    }
  }

  /** The holders after an event that acquires and releases nothing. */
  lemma HoldersFrame(s: State, s': State, me: Tid, op: Op, ret: Ret)
    requires HoldersOk(s) && s'.mutexes == s.mutexes && s'.log == s.log + [Event(me, op, ret)]
    requires op == SleepOp || op.PollOp? || op.WaitOp?
    ensures HoldersOk(s')
  {
    HoldersLogged(s, me, op, ret);
  }

  lemma WaitTailInv(s: State, me: Tid, c: Cid)
    requires InvAt(s, Some(me)) && s.threads[me].call == Waiting(c) && c in s.conds
    ensures InvAt(WaitTail(s, me, c), Some(me))
  {
    assert me in s.threads;
    hide ThreadsOk, QueuesOk, MutexesOk, CondsOk, ReqsOk, CountsOk, HoldersOk, Remove, WaitRet;
    var s' := WaitTail(s, me, c);
    WaitTailThreads(s, me, c);
    WaitTailConds(s, me, c);
    HoldersFrame(s, s', me, WaitOp(c), WaitRet(s.threads[me]));
    MutexesFrame(s, s');
    ReqsFrame(s, s');
  }

  lemma FinishThreads(s: State, me: Tid, op: Op, ret: Ret)
    requires ThreadsOk(s, Some(me)) && QueuesOk(s)
    requires (s.threads[me].call == Napping || s.threads[me].call.Polling?) && (op == SleepOp || op.PollOp?)
    ensures ThreadsOk(Finish(s, me, op, ret), Some(me)) && QueuesOk(Finish(s, me, op, ret))
  {
    assert !s.threads[me].timedout by {
      assert ThreadOk(s, Some(me), me);
    }
    hide ThreadsOk, QueuesOk;
    AroundOthers(s, me, Finish(s, me, op, ret));
    LeaveThreads(s, me, Finish(s, me, op, ret));
  }

  lemma FinishReqs(s: State, me: Tid, op: Op, ret: Ret)
    requires ReqsOk(s) && me in s.threads
    requires s.threads[me].call == Napping || (s.threads[me].call.Polling? && s.threads[me].call.r !in s.ioq)
    ensures ReqsOk(Finish(s, me, op, ret))
  {
  }

  /** A thread whose call has left no trace returns. */
  lemma FinishInv(s: State, me: Tid, op: Op, ret: Ret)
    requires InvAt(s, Some(me))
    requires s.threads[me].call == Napping || (s.threads[me].call.Polling? && s.threads[me].call.r !in s.ioq)
    requires op == SleepOp || op.PollOp?
    ensures InvAt(Finish(s, me, op, ret), Some(me))
  {
    assert me in s.threads;
    hide ThreadsOk, QueuesOk, MutexesOk, CondsOk, ReqsOk, CountsOk, HoldersOk;
    var s' := Finish(s, me, op, ret);
    FinishThreads(s, me, op, ret);
    FinishReqs(s, me, op, ret);
    HoldersFrame(s, s', me, op, ret);
    MutexesFrame(s, s');
    CondsFrame(s, s');
  }

  // ----- the counters

  lemma {:induction false} OutstandingAppend(q: seq<Rid>, r: Rid, reqs: map<Rid, Request>, k: Kind, fd: int)
    requires r in reqs
    ensures Outstanding(q + [r], reqs, k, fd) == Outstanding(q, reqs, k, fd) + Matches(reqs[r].pds, k, fd)
  {
    if q == [] {
    } else {
      OutstandingAppend(q[1..], r, reqs, k, fd);
      assert (q + [r])[1..] == q[1..] + [r];
    }
  }

  /** Only the entries of the queued requests count. */
  lemma {:induction false} OutstandingFrame(q: seq<Rid>, reqs: map<Rid, Request>, reqs': map<Rid, Request>, k: Kind, fd: int)
    requires forall r :: r in q ==> r in reqs && r in reqs' && Matches(reqs[r].pds, k, fd) == Matches(reqs'[r].pds, k, fd)
    ensures Outstanding(q, reqs, k, fd) == Outstanding(q, reqs', k, fd)
  {
    if q == [] {
    } else {
      assert q[0] in q;
      OutstandingFrame(q[1..], reqs, reqs', k, fd);
    }
  }

  lemma {:induction false} OutstandingRemove(q: seq<Rid>, r: Rid, reqs: map<Rid, Request>, k: Kind, fd: int)
    requires r in q && r in reqs
    ensures Outstanding(q, reqs, k, fd) == Outstanding(Remove(q, r), reqs, k, fd) + Matches(reqs[r].pds, k, fd)
  {
    if q[0] != r {
      OutstandingRemove(q[1..], r, reqs, k, fd);
      var rest := Remove(q[1..], r);
      assert Remove(q, r) == [q[0]] + rest && ([q[0]] + rest)[1..] == rest;
    }
  }

  /** Registering a new request keeps the counters exact. */
  lemma RegisterCountsOk(ev: EventSys, q: seq<Rid>, reqs: map<Rid, Request>, r: Rid, rq: Request)
    requires CountsOk(ev, q, reqs) && r !in reqs && forall x :: x in q ==> x in reqs
    ensures CountsOk(Register(ev, rq.pds), q + [r], reqs[r := rq])
  {
    var ev', reqs' := Register(ev, rq.pds), reqs[r := rq];
    forall k, fd
      ensures Get(ev', k, fd) == Outstanding(q + [r], reqs', k, fd)
    {
      RegisterCounts(ev, rq.pds, k, fd);
      OutstandingAppend(q, r, reqs', k, fd);
      OutstandingFrame(q, reqs, reqs', k, fd);
    }
    RegisterCounts(ev, rq.pds, In, 0);
  }

  /** Unregistering a queued request, in either of the two places, keeps the counters exact. */
  lemma UnregisterCountsOk(ev: EventSys, q: seq<Rid>, reqs: map<Rid, Request>, r: Rid, rq: Request)
    requires CountsOk(ev, q, reqs) && NoDup(q) && r in q && forall x :: x in q ==> x in reqs
    ensures CountsOk(Unregister(ev, reqs[r].pds), Remove(q, r), reqs[r := rq])
    ensures CountsOk(UnregisterDispatched(ev, reqs[r].pds), Remove(q, r), reqs[r := rq])
  {
    var pds, reqs' := reqs[r].pds, reqs[r := rq];
    RemoveElems(q, r);
    forall k, fd
      ensures Get(Unregister(ev, pds), k, fd) == Outstanding(Remove(q, r), reqs', k, fd)
      ensures Get(UnregisterDispatched(ev, pds), k, fd) == Outstanding(Remove(q, r), reqs', k, fd)
    {
      OutstandingRemove(q, r, reqs, k, fd);
      UnregisterCounts(ev, pds, k, fd);
      OutstandingFrame(Remove(q, r), reqs, reqs', k, fd);
    }
    OutstandingRemove(q, r, reqs, In, 0);
    UnregisterCounts(ev, pds, In, 0);
  }

  /** Writing `revents` does not change what is counted. */
  lemma {:induction false} MarkMatches(pds: seq<PollFd>, ready: Ready, k: Kind, fd: int)
    ensures Matches(MarkAll(pds, ready), k, fd) == Matches(pds, k, fd)
  {
    if pds == [] {
    } else {
      MarkMatches(pds[..|pds| - 1], ready, k, fd);
      assert MarkAll(pds, ready)[..|pds| - 1] == MarkAll(pds[..|pds| - 1], ready);
    }
  }

  lemma MarkCountsOk(ev: EventSys, q: seq<Rid>, reqs: map<Rid, Request>, r: Rid, ready: Ready)
    requires CountsOk(ev, q, reqs) && r in reqs && forall x :: x in q ==> x in reqs
    ensures CountsOk(ev, q, reqs[r := reqs[r].(pds := MarkAll(reqs[r].pds, ready))])
  {
    var reqs' := reqs[r := reqs[r].(pds := MarkAll(reqs[r].pds, ready))];
    forall k, fd
      ensures Outstanding(q, reqs', k, fd) == Outstanding(q, reqs, k, fd)
    {
      MarkMatches(reqs[r].pds, ready, k, fd);
      OutstandingFrame(q, reqs, reqs', k, fd);
    }
    forall x | x in q
      ensures Grouped(ev, reqs'[x].pds)
    {
      forall pd | pd in reqs'[x].pds && pd.fd > 0 && !pd.NoEvents()
        ensures Group(pd.fd) < ev.groups
      {
        var i :| 0 <= i < |reqs'[x].pds| && reqs'[x].pds[i] == pd;
        assert reqs[x].pds[i] in reqs[x].pds;
      }
    }
  }

  // ----- polling

  function PollBlock(s: State, me: Tid, r: Rid, pds: seq<PollFd>): State
    requires me in s.threads
  {
    Block(s, me, IoWait, Polling(r)).(
      ev := Register(s.ev, pds), reqs := s.reqs[r := Request(me, pds, true)], ioq := s.ioq + [r])
  }

  lemma PollBlockThreads(s: State, me: Tid, r: Rid, pds: seq<PollFd>)
    requires ThreadsOk(s, Some(me)) && QueuesOk(s) && r !in s.reqs
    requires s.threads[me].call == NoCall && !s.threads[me].interrupt
    ensures ThreadsOk(PollBlock(s, me, r, pds), None) && QueuesOk(PollBlock(s, me, r, pds))
  {
    hide Register;
    var s' := PollBlock(s, me, r, pds);
    assert ThreadOk(s, Some(me), me);
    forall x | x in s'.threads
      ensures ThreadOk(s', None, x)
    {
      assert ThreadOk(s, Some(me), x);
    }
  }

  lemma PollBlockReqs(s: State, me: Tid, r: Rid, pds: seq<PollFd>)
    requires ReqsOk(s) && me in s.threads && s.threads[me].call == NoCall && r !in s.reqs
    ensures ReqsOk(PollBlock(s, me, r, pds))
  {
    hide Register;
    AppendNoDup(s.ioq, r);
  }

  lemma SameHolders(s: State, s': State)
    requires HoldersOk(s) && s'.mutexes == s.mutexes && s'.log == s.log
    ensures HoldersOk(s')
  {
  }

  lemma PollBlockInv(s: State, me: Tid, r: Rid, pds: seq<PollFd>)
    requires InvAt(s, Some(me)) && s.threads[me].call == NoCall && !s.threads[me].interrupt && r !in s.reqs
    ensures InvAt(PollBlock(s, me, r, pds), None)
  {
    assert forall x :: x in s.ioq ==> x in s.reqs;
    hide ThreadsOk, QueuesOk, MutexesOk, CondsOk, ReqsOk, CountsOk, HoldersOk, Register;
    var s' := PollBlock(s, me, r, pds);
    PollBlockThreads(s, me, r, pds);
    PollBlockReqs(s, me, r, pds);
    RegisterCountsOk(s.ev, s.ioq, s.reqs, r, Request(me, pds, true));
    assert HoldersOk(s') by {
      SameHolders(s, s');
    }
    MutexesFrame(s, s');
    CondsFrame(s, s');
  }

  lemma PollInv(s: State, r: Rid, pds: seq<PollFd>, timeout: Option<nat>)
    requires Inv(s) && Enabled(s, Poll(r, pds, timeout))
    ensures Inv(Apply(s, Poll(r, pds, timeout)))
  {
    var me, run := s.current.t, RunOf(s.current);
    assert ThreadOk(s, run, me);
    if s.threads[me].interrupt {
      FlagInv(s, run, me, false);
      LoggedInv(ClearInterrupt(s, me), run, me, PollOp(r), Err(EINTR));
    } else {
      var s1 := PollBlock(s, me, r, pds);
      var usecs := if timeout.Some? then timeout.value else 1;
      PollBlockInv(s, me, r, pds);
      AddSleepInv(s1, me, usecs);
      BlockedSchedule(AddSleep(s1, me, usecs), me);
    }
  }

  /** Taking request `r` off the I/O queue, by either party. */
  ghost predicate Withdrawn(s: State, r: Rid, s': State) {
    && r in s.ioq && r in s.reqs && r in s'.reqs
    && s'.ioq == Remove(s.ioq, r) && s'.unregistered == s.unregistered + [r]
    && s'.ev in {Unregister(s.ev, s.reqs[r].pds), UnregisterDispatched(s.ev, s.reqs[r].pds)}
    && s'.reqs == s.reqs[r := s'.reqs[r]] && s'.reqs[r].tid == s.reqs[r].tid && !s'.reqs[r].onIoq
  }

  lemma WithdrawnReqs(s: State, r: Rid, s': State)
    requires ReqsOk(s) && CountsOk(s.ev, s.ioq, s.reqs) && Withdrawn(s, r, s')
    requires forall t :: t in s.threads && s.threads[t].call.Polling? && s.threads[t].call.r != r ==>
               t in s'.threads && s'.threads[t].call == s.threads[t].call
    ensures ReqsOk(s') && CountsOk(s'.ev, s'.ioq, s'.reqs)
  {
    RemoveElems(s.ioq, r);
    AppendNoDup(s.unregistered, r);
    UnregisterCountsOk(s.ev, s.ioq, s.reqs, r, s'.reqs[r]);
  }

  lemma PollWithdrawThreads(s: State, me: Tid, r: Rid)
    requires ThreadsOk(s, Some(me)) && QueuesOk(s) && s.threads[me].call == Polling(r) && r in s.reqs && s.reqs[r].onIoq
    ensures ThreadsOk(PollTail(s, me, r), Some(me)) && QueuesOk(PollTail(s, me, r))
  {
    assert !s.threads[me].timedout && s.reqs[r].tid == me by {
      assert ThreadOk(s, Some(me), me);
    }
    hide ThreadsOk, QueuesOk, Unregister, CountReady, Remove, PollRet;
    AroundOthers(s, me, PollTail(s, me, r));
    LeaveThreads(s, me, PollTail(s, me, r));
  }

  /** `st_poll` withdraws its own request: it was woken by the clock or an interrupt. */
  lemma PollWithdrawInv(s: State, me: Tid, r: Rid)
    requires InvAt(s, Some(me)) && s.threads[me].call == Polling(r) && r in s.ioq && s.reqs[r].onIoq
    ensures InvAt(PollTail(s, me, r), Some(me))
  {
    assert me in s.threads && r in s.reqs;
    hide ThreadsOk, QueuesOk, MutexesOk, CondsOk, ReqsOk, CountsOk, HoldersOk, Unregister, CountReady, Remove, PollRet;
    var s' := PollTail(s, me, r);
    PollWithdrawThreads(s, me, r);
    WithdrawnReqs(s, r, s');
    HoldersFrame(s, s', me, PollOp(r), PollRet(s, me, r));
    MutexesFrame(s, s');
    CondsFrame(s, s');
  }

  lemma PollTailInv(s: State, me: Tid, r: Rid)
    requires InvAt(s, Some(me)) && s.threads[me].call == Polling(r) && r in s.reqs
    ensures InvAt(PollTail(s, me, r), Some(me))
  {
    if s.reqs[r].onIoq {
      PollWithdrawInv(s, me, r);
    } else {
      FinishInv(s, me, PollOp(r), PollRet(s, me, r));
    }
  }

  lemma ReturnInv(s: State)
    requires Inv(s) && Enabled(s, Return)
    ensures Inv(Apply(s, Return))
  {
    var me := s.current.t;
    match s.threads[me].call
    case Locking(m) => LockTailInv(s, me, m);
    case Waiting(c) => WaitTailInv(s, me, c);
    case Polling(r) => PollTailInv(s, me, r);
    case Napping => FinishInv(s, me, SleepOp, Ok(0));
  }

  // ----- the idle loop

  lemma MarkedReady(pds: seq<PollFd>, ready: Ready)
    ensures Notified(pds, ready) ==> AnyReady(MarkAll(pds, ready))
  {
    if Notified(pds, ready) {
      var i :| 0 <= i < |pds| && Hit(pds[i], ready);
      assert MarkAll(pds, ready)[i].revents;
    }
  }

  /** A selected request wakes its thread, which must not have been woken by anything else. */
  lemma DispatchHitThreads(s: State, r: Rid, ready: Ready)
    requires ThreadsOk(s, None) && QueuesOk(s) && r in s.reqs && s.reqs[r].tid in s.threads
    requires s.threads[s.reqs[r].tid].call == Polling(r)
    requires Notified(s.reqs[r].pds, ready) && s.threads[s.reqs[r].tid].state == IoWait
    ensures ThreadsOk(DispatchReq(s, r, ready), None) && QueuesOk(DispatchReq(s, r, ready))
  {
    MarkedReady(s.reqs[r].pds, ready);
    hide UnregisterDispatched, Notified, MarkAll, AnyReady;
    var s', t := DispatchReq(s, r, ready), s.reqs[r].tid;
    assert ThreadOk(s, None, t);
    AppendNoDup(s.runq, t);
    forall x | x in s'.threads
      ensures ThreadOk(s', None, x)
    {
      assert ThreadOk(s, None, x);
    }
  }

  lemma DispatchMissThreads(s: State, r: Rid, ready: Ready)
    requires ThreadsOk(s, None) && QueuesOk(s) && r in s.reqs && s.reqs[r].onIoq && !Notified(s.reqs[r].pds, ready)
    ensures ThreadsOk(DispatchReq(s, r, ready), None) && QueuesOk(DispatchReq(s, r, ready))
  {
    hide Notified, MarkAll, AnyReady;
    var s' := DispatchReq(s, r, ready);
    forall x | x in s'.threads
      ensures ThreadOk(s', None, x)
    {
      assert ThreadOk(s, None, x);
    }
  }

  lemma DispatchHitInv(s: State, r: Rid, ready: Ready)
    requires InvAt(s, None) && r in s.ioq
    requires Notified(s.reqs[r].pds, ready) && s.threads[s.reqs[r].tid].state == IoWait
    ensures InvAt(DispatchReq(s, r, ready), None)
  {
    var s' := DispatchReq(s, r, ready);
    DispatchHitThreads(s, r, ready);
    hide ThreadsOk, CountsOk, UnregisterDispatched, Notified, MarkAll;
    WithdrawnReqs(s, r, s');
    MutexesFrame(s, s');
    CondsFrame(s, s');
  }

  lemma DispatchMissInv(s: State, r: Rid, ready: Ready)
    requires InvAt(s, None) && r in s.ioq && !Notified(s.reqs[r].pds, ready)
    ensures InvAt(DispatchReq(s, r, ready), None)
  {
    var s' := DispatchReq(s, r, ready);
    DispatchMissThreads(s, r, ready);
    hide ThreadsOk, CountsOk, Notified, MarkAll;
    MarkCountsOk(s.ev, s.ioq, s.reqs, r, ready);
    MutexesFrame(s, s');
    CondsFrame(s, s');
  }

  lemma DispatchReqInv(s: State, r: Rid, ready: Ready)
    requires InvAt(s, None) && r in s.ioq
    requires Notified(s.reqs[r].pds, ready) ==> s.threads[s.reqs[r].tid].state == IoWait
    ensures InvAt(DispatchReq(s, r, ready), None)
  {
    if Notified(s.reqs[r].pds, ready) {
      DispatchHitInv(s, r, ready);
    } else {
      DispatchMissInv(s, r, ready);
    }
  }

  /** A request on queue `q` that this pass selects has a thread that still waits for it. */
  ghost predicate SafePass(s: State, q: seq<Rid>, ready: Ready) {
    forall r :: r in q ==>
      && r in s.ioq && r in s.reqs && s.reqs[r].tid in s.threads
      && (Notified(s.reqs[r].pds, ready) ==> s.threads[s.reqs[r].tid].state == IoWait)
  }

  /** A dispatched request touches no other request and no other poller. */
  lemma DispatchReqFrame(s: State, r: Rid, ready: Ready, x: Rid)
    requires ReqsOk(s) && r in s.ioq && x in s.ioq && x != r
    ensures var s' := DispatchReq(s, r, ready);
            && x in s'.ioq && x in s'.reqs && s'.reqs[x] == s.reqs[x]
            && s.reqs[x].tid in s'.threads && s'.threads[s.reqs[x].tid] == s.threads[s.reqs[x].tid]
  {
    RemoveElems(s.ioq, r);
  }

  lemma {:induction false} DispatchFromInv(s: State, q: seq<Rid>, ready: Ready)
    requires InvAt(s, None) && NoDup(q) && SafePass(s, q, ready)
    ensures InvAt(DispatchFrom(s, q, ready), None)
    ensures DispatchFrom(s, q, ready).current == s.current
    decreases q
  {
    if q == [] {
    } else {
      var s' := DispatchReq(s, q[0], ready);
      assert q[0] in q;
      DispatchReqInv(s, q[0], ready);
      forall x | x in q[1..]
        ensures x in s'.ioq && x in s'.reqs && s'.reqs[x].tid in s'.threads
        ensures Notified(s'.reqs[x].pds, ready) ==> s'.threads[s'.reqs[x].tid].state == IoWait
      {
        assert x in q && x != q[0];
        DispatchReqFrame(s, q[0], ready, x);
      }
      DispatchFromInv(s', q[1..], ready);
    }
  }

  /** The condition under which dispatching is safe when other threads are already runnable. */
  ghost predicate SafeDispatch(s: State, passes: seq<Ready>)
    decreases passes
  {
    passes == [] ||
    (SafePass(s, s.ioq, passes[0]) && SafeDispatch(DispatchFrom(s, s.ioq, passes[0]), passes[1..]))
  }

  lemma {:induction false} DispatchInv(s: State, passes: seq<Ready>)
    requires InvAt(s, None) && SafeDispatch(s, passes)
    ensures InvAt(Dispatch(s, passes), None) && Dispatch(s, passes).current == s.current
    decreases passes
  {
    if passes == [] {
    } else {
      DispatchFromInv(s, s.ioq, passes[0]);
      DispatchInv(DispatchFrom(s, s.ioq, passes[0]), passes[1..]);
    }
  }

  lemma ClockInv(s: State, now: nat)
    requires InvAt(s, None)
    ensures InvAt(s.(lastClock := now), None)
  {
    var s' := s.(lastClock := now);
    forall x | x in s'.threads
      ensures ThreadOk(s', None, x)
    {
      assert ThreadOk(s, None, x);
    }
    ResourcesFrame(s, None, s', None);
  }

  lemma {:induction false} ExpireInv(s: State, order: seq<Tid>)
    requires InvAt(s, None) && NoDup(order) && forall t :: t in order ==> t in s.sleepq
    ensures InvAt(ExpireAll(s, order), None) && ExpireAll(s, order).current == s.current
    decreases order
  {
    if order == [] {
    } else {
      var t := order[0];
      assert t in order;
      assert ThreadOk(s, None, t);
      RequeueInv(s, None, t, Timer);
      ExpireInv(Requeue(s, t, Timer), order[1..]);
    }
  }

  /** Each request on the I/O queue has a thread that still waits for it. */
  ghost predicate AllWaiting(s: State) {
    forall r :: r in s.ioq ==>
      r in s.reqs && s.reqs[r].tid in s.threads && s.threads[s.reqs[r].tid].state == IoWait
  }

  /** When the run queue is empty nobody has been woken behind the back of the I/O queue. */
  lemma EmptyRunqWaiting(s: State)
    requires InvAt(s, None) && s.runq == []
    ensures AllWaiting(s)
  {
    forall r | r in s.ioq
      ensures s.threads[s.reqs[r].tid].state == IoWait
    {
      assert ThreadOk(s, None, s.reqs[r].tid);
    }
  }

  lemma {:induction false} WaitingAfterPass(s: State, q: seq<Rid>, ready: Ready)
    requires InvAt(s, None) && AllWaiting(s) && NoDup(q) && forall r :: r in q ==> r in s.ioq
    ensures AllWaiting(DispatchFrom(s, q, ready))
    decreases q
  {
    if q == [] {
    } else {
      var s' := DispatchReq(s, q[0], ready);
      assert q[0] in q;
      DispatchReqInv(s, q[0], ready);
      RemoveElems(s.ioq, q[0]);
      forall x | x in s'.ioq
        ensures x in s'.reqs && s'.reqs[x].tid in s'.threads && s'.threads[s'.reqs[x].tid].state == IoWait
      {
        if x != q[0] {
          DispatchReqFrame(s, q[0], ready, x);
        }
      }
      forall x | x in q[1..]
        ensures x in s'.ioq
      {
        assert x in q && x != q[0];
      }
      WaitingAfterPass(s', q[1..], ready);
    }
  }

  /** The idle fiber may dispatch anything: its run queue was empty. */
  lemma {:induction false} WaitingSafe(s: State, passes: seq<Ready>)
    requires InvAt(s, None) && AllWaiting(s)
    ensures SafeDispatch(s, passes)
    decreases passes
  {
    if passes == [] {
    } else {
      DispatchFromInv(s, s.ioq, passes[0]);
      WaitingAfterPass(s, s.ioq, passes[0]);
      WaitingSafe(DispatchFrom(s, s.ioq, passes[0]), passes[1..]);
    }
  }

  /** The one condition on a run: when the native fiber dispatches, it does not select a
      request whose thread something else has already woken. A turn of the native fiber keeps
      the invariant if and only if this holds (SchedulerWakeups.TurnInvIffSafe). */
  ghost predicate Benign(s: State, step: Step) {
    step.IdleTurn? && s.current == Native ==> SafeDispatch(s, step.passes)
  }

  lemma IdleInv(s: State, passes: seq<Ready>, now: nat, order: seq<Tid>)
    requires Inv(s) && Enabled(s, IdleTurn(passes, now, order)) && Benign(s, IdleTurn(passes, now, order))
    ensures Inv(Apply(s, IdleTurn(passes, now, order)))
  {
    if s.current == Idle {
      EmptyRunqWaiting(s);
      WaitingSafe(s, passes);
    }
    var s1 := Dispatch(s, passes);
    DispatchInv(s, passes);
    ClockInv(s1, now);
    ExpireInv(s1.(lastClock := now), order);
    ScheduleInv(ExpireAll(s1.(lastClock := now), order));
  }

  lemma {:induction false} NotifyCurrent(s: State, q: seq<Tid>, broadcast: bool)
    ensures NotifyFrom(s, q, broadcast).current == s.current
    decreases q
  {
    if q == [] {
    } else {
      if q[0] in s.threads && s.threads[q[0]].state == CondWait {
        if broadcast {
          NotifyCurrent(Requeue(s, q[0], Signal), q[1..], broadcast);
        }
      } else {
        NotifyCurrent(s, q[1..], broadcast);
      }
    }
  }

  lemma NotifyStepInv(s: State, c: Cid, broadcast: bool)
    requires Inv(s) && Enabled(s, Notify(c, broadcast))
    ensures Inv(Apply(s, Notify(c, broadcast)))
  {
    NotifyInv(s, RunOf(s.current), s.conds[c], broadcast);
    NotifyCurrent(s, s.conds[c], broadcast);
  }

  /** Every step keeps the invariant. */
  lemma StepInv(s: State, step: Step)
    requires Inv(s) && Enabled(s, step) && Benign(s, step)
    ensures Inv(Apply(s, step))
  {
    hide Inv;
    match step
    case Create(t) => CreateInv(s, t);
    case Lock(m) => LockInv(s, m);
    case TryLock(m) => TryLockInv(s, m);
    case Unlock(m) => UnlockInv(s, m);
    case Wait(c, timeout) => WaitInv(s, c, timeout);
    case Notify(c, broadcast) => NotifyStepInv(s, c, broadcast);
    case Poll(r, pds, timeout) => PollInv(s, r, pds, timeout);
    case Sleep(usecs) => SleepInv(s, usecs);
    case Interrupt(t) => InterruptInv(s, t);
    case Exit => ExitInv(s);
    case Return => ReturnInv(s);
    case IdleTurn(passes, now, order) => IdleInv(s, passes, now, order);
  }

  // ----- runs

  /** A run: `states[i]` goes to `states[i + 1]` by `steps[i]`. */
  ghost predicate IsRun(states: seq<State>, steps: seq<Step>) {
    && |states| == |steps| + 1
    && forall i :: 0 <= i < |steps| ==>
         Enabled(states[i], steps[i]) && Benign(states[i], steps[i]) && states[i + 1] == Apply(states[i], steps[i])
  }

  /** Every state of every run satisfies the invariant. */
  lemma {:induction false} RunInv(ms: set<Mid>, cs: set<Cid>, states: seq<State>, steps: seq<Step>, i: nat)
    requires IsRun(states, steps) && states[0] == Init(ms, cs) && i < |states|
    ensures Inv(states[i])
  {
    hide Inv, Apply, Enabled, Benign, Init;
    if i == 0 {
      InitInv(ms, cs);
    } else {
      RunInv(ms, cs, states, steps, i - 1);
      StepInv(states[i - 1], steps[i - 1]);
    }
  }
}
