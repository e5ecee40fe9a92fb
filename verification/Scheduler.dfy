/** The cooperative scheduler with its mutexes, condition variables and poll requests
    (sched.c, sync.c, event.c) as a step machine. A step is a call by the running thread, the
    tail of a blocking call after the thread has been resumed, or one turn of the loop that
    idles the processor. */
module Scheduler {
  import opened Lists
  import opened Threads
  import opened PollSet

  type Tid = nat
  type Mid = nat
  type Cid = nat
  type Rid = nat

  /** What put a blocked thread back on the run queue. */
  datatype Cause = Timer | Signal | Handoff | IoReady | Interrupted

  /** The blocking call whose tail a thread still has to run. */
  datatype Call = NoCall | Locking(m: Mid) | Waiting(c: Cid) | Polling(r: Rid) | Napping

  /** `causes` is a history: what has re-queued the thread since it last blocked. */
  datatype Thr = Thr(
    state: RunState, onSleepq: bool, interrupt: bool, timedout: bool, due: nat, call: Call, causes: seq<Cause>)

  datatype Mutex = Mutex(owner: Option<Tid>, waitq: seq<Tid>)

  /** The `_st_pollq_t` on the stack of a polling thread. */
  datatype Request = Request(tid: Tid, pds: seq<PollFd>, onIoq: bool)

  /** Who runs: the native fiber of sched.c:144-159, the idle fiber of sched.c:161-179, or a thread. */
  datatype Current = Native | Idle | Run(t: Tid)

  datatype Errno = EINTR | EDEADLK | EPERM | EBUSY | ETIME
  datatype Ret = Ok(n: nat) | Err(errno: Errno)
  datatype Op = LockOp(m: Mid) | TryLockOp(m: Mid) | UnlockOp(m: Mid) | WaitOp(c: Cid) | PollOp(r: Rid) | SleepOp

  /** A call that has returned. */
  datatype Event = Event(t: Tid, op: Op, ret: Ret)

  datatype State = State(
    threads: map<Tid, Thr>,
    current: Current,
    runq: seq<Tid>,
    sleepq: set<Tid>,
    mutexes: map<Mid, Mutex>,
    conds: map<Cid, seq<Tid>>,
    reqs: map<Rid, Request>,
    ioq: seq<Rid>,
    ev: EventSys,
    unregistered: seq<Rid>,
    lastClock: nat,
    log: seq<Event>)

  /** The descriptors that one `select` call reports. */
  datatype Ready = Ready(r: set<int>, w: set<int>, e: set<int>)

  datatype Step =
    | Create(t: Tid)
    | Lock(m: Mid)
    | TryLock(m: Mid)
    | Unlock(m: Mid)
    | Wait(c: Cid, timeout: Option<nat>)
    | Notify(c: Cid, broadcast: bool)
    | Poll(r: Rid, pds: seq<PollFd>, timeout: Option<nat>)
    | Sleep(usecs: Option<nat>)
    | Interrupt(t: Tid)
    | Exit
    | Return
    | IdleTurn(passes: seq<Ready>, now: nat, order: seq<Tid>)

  // ----- primitives

  predicate Blocked(st: RunState) {
    st in {IoWait, LockWait, CondWait, Sleeping, Suspended}
  }

  function SetThr(s: State, t: Tid, th: Thr): State {
    s.(threads := s.threads[t := th])
  }

  function Logged(s: State, t: Tid, op: Op, ret: Ret): State {
    s.(log := s.log + [Event(t, op, ret)])
  }

  /** `_ST_ADD_SLEEPQ`. */
  function AddSleep(s: State, t: Tid, timeout: nat): State
    requires t in s.threads
  {
    SetThr(s, t, s.threads[t].(due := s.lastClock + timeout, onSleepq := true)).(sleepq := s.sleepq + {t})
  }

  /** The wake-up sequence that the signal, dispatch, clock and interrupt code share: leave
      the sleep queue if on it, become runnable, join the run queue. The clock flags a
      condition waiter as timed out; an interrupt leaves its own flag. */
  function Requeue(s: State, t: Tid, cause: Cause): State
    requires t in s.threads
  {
    var th := s.threads[t];
    var th' := th.(
      state := Runnable,
      onSleepq := false,
      timedout := th.timedout || (cause == Timer && th.state == CondWait),
      interrupt := th.interrupt || cause == Interrupted,
      causes := th.causes + [cause]);
    SetThr(s, t, th').(sleepq := if th.onSleepq then s.sleepq - {t} else s.sleepq, runq := s.runq + [t])
  }

  /** The thread at the head of the run queue, if it can run. */
  function Head(s: State): Option<Tid> {
    if s.runq != [] && s.runq[0] in s.threads && s.threads[s.runq[0]].state == Runnable then Some(s.runq[0]) else None
  }

  /** `_st_vp_schedule`: the head of the run queue is taken off and runs. If it cannot run, or if
      it is the caller itself, which then goes to the end of the queue, the idle fiber runs. */
  function Schedule(s: State): State {
    var head, rest := Head(s), if s.runq == [] then [] else s.runq[1..];
    var runs := head.Some? && s.current != Run(head.value);
    s.(runq := if head.Some? && !runs then rest + [head.value] else rest,
       current := if runs then Run(head.value) else Idle,
       threads := if runs then s.threads[head.value := s.threads[head.value].(state := Running)] else s.threads)
  }

  /** The calling thread gives up the processor inside a blocking call. */
  function Block(s: State, me: Tid, st: RunState, call: Call): State
    requires me in s.threads
  {
    SetThr(s, me, s.threads[me].(state := st, call := call, causes := []))
  }

  function ClearInterrupt(s: State, me: Tid): State
    requires me in s.threads
  {
    SetThr(s, me, s.threads[me].(interrupt := false))
  }

  function SetMutex(s: State, m: Mid, mu: Mutex): State {
    s.(mutexes := s.mutexes[m := mu])
  }

  // ----- calls

  /** The first part of `st_mutex_lock`. */
  function LockStep(s: State, me: Tid, m: Mid): State
    requires me in s.threads && m in s.mutexes
  {
    var mu := s.mutexes[m];
    if s.threads[me].interrupt then Logged(ClearInterrupt(s, me), me, LockOp(m), Err(EINTR))
    else if mu.owner == None then Logged(SetMutex(s, m, mu.(owner := Some(me))), me, LockOp(m), Ok(0))
    else if mu.owner == Some(me) then Logged(s, me, LockOp(m), Err(EDEADLK))
    else Schedule(SetMutex(Block(s, me, LockWait, Locking(m)), m, mu.(waitq := mu.waitq + [me])))
  }

  /** `st_mutex_trylock`. */
  function TryLockStep(s: State, me: Tid, m: Mid): State
    requires m in s.mutexes
  {
    var mu := s.mutexes[m];
    if mu.owner != None then Logged(s, me, TryLockOp(m), Err(EBUSY))
    else Logged(SetMutex(s, m, mu.(owner := Some(me))), me, TryLockOp(m), Ok(0))
  }

  /** The first thread of a wait queue that is still in state `st`. */
  function FirstIn(threads: map<Tid, Thr>, q: seq<Tid>, st: RunState): (i: nat)
    ensures i <= |q|
    ensures forall j :: 0 <= j < i ==> q[j] !in threads || threads[q[j]].state != st
    ensures i < |q| ==> q[i] in threads && threads[q[i]].state == st
  {
    if q == [] then 0
    else if q[0] in threads && threads[q[0]].state == st then 0
    else 1 + FirstIn(threads, q[1..], st)
  }

  /** The mutex passes to the waiter `t`, which becomes runnable. */
  function HandOver(s: State, m: Mid, t: Tid): State
    requires m in s.mutexes && t in s.threads
  {
    var th := s.threads[t];
    SetThr(SetMutex(s, m, s.mutexes[m].(owner := Some(t))), t,
           th.(state := Runnable, causes := th.causes + [Handoff])).(runq := s.runq + [t])
  }

  /** `st_mutex_unlock`. */
  function UnlockStep(s: State, me: Tid, m: Mid): State
    requires m in s.mutexes
  {
    var mu := s.mutexes[m];
    if mu.owner != Some(me) then Logged(s, me, UnlockOp(m), Err(EPERM))
    else
      var i := FirstIn(s.threads, mu.waitq, LockWait);
      var s' := if i == |mu.waitq| then SetMutex(s, m, mu.(owner := None))
                else HandOver(s, m, mu.waitq[i]);
      Logged(s', me, UnlockOp(m), Ok(0))
  }

  /** The first part of `st_cond_timedwait`. */
  function WaitStep(s: State, me: Tid, c: Cid, timeout: Option<nat>): State
    requires me in s.threads && c in s.conds
  {
    if s.threads[me].interrupt then Logged(ClearInterrupt(s, me), me, WaitOp(c), Err(EINTR))
    else
      var s1 := Block(s, me, CondWait, Waiting(c)).(conds := s.conds[c := s.conds[c] + [me]]);
      var s2 := if timeout.Some? then AddSleep(s1, me, timeout.value) else s1;
      Schedule(s2)
  }

  /** The loop of `_st_cond_signal` over the rest `q` of the wait queue. */
  function NotifyFrom(s: State, q: seq<Tid>, broadcast: bool): State
    decreases q
  {
    if q == [] then s
    else if q[0] in s.threads && s.threads[q[0]].state == CondWait then
      var s' := Requeue(s, q[0], Signal);
      if broadcast then NotifyFrom(s', q[1..], broadcast) else s'
    else NotifyFrom(s, q[1..], broadcast)
  }

  /** The first part of `st_poll`. A request without timeout is given one microsecond. */
  function PollStep(s: State, me: Tid, r: Rid, pds: seq<PollFd>, timeout: Option<nat>): State
    requires me in s.threads
  {
    if s.threads[me].interrupt then Logged(ClearInterrupt(s, me), me, PollOp(r), Err(EINTR))
    else
      var s1 := Block(s, me, IoWait, Polling(r)).(
        ev := Register(s.ev, pds),
        reqs := s.reqs[r := Request(me, pds, true)],
        ioq := s.ioq + [r]);
      Schedule(AddSleep(s1, me, if timeout.Some? then timeout.value else 1))
  }

  /** The first part of `st_usleep`. */
  function SleepStep(s: State, me: Tid, usecs: Option<nat>): State
    requires me in s.threads
  {
    if s.threads[me].interrupt then Logged(ClearInterrupt(s, me), me, SleepOp, Err(EINTR))
    else if usecs.Some? then Schedule(AddSleep(Block(s, me, Sleeping, Napping), me, usecs.value))
    else Schedule(Block(s, me, Suspended, Napping))
  }

  /** `st_thread_interrupt`. */
  function InterruptStep(s: State, t: Tid): State
    requires t in s.threads
  {
    var th := s.threads[t];
    if th.state == Zombie then s
    else if th.state == Running || th.state == Runnable then SetThr(s, t, th.(interrupt := true))
    else Requeue(s, t, Interrupted)
  }

  // ----- tails of blocking calls

  function CountReady(pds: seq<PollFd>): nat {
    if pds == [] then 0 else CountReady(pds[..|pds| - 1]) + if pds[|pds| - 1].revents then 1 else 0
  }

  function Finish(s: State, me: Tid, op: Op, ret: Ret): State
    requires me in s.threads
  {
    Logged(SetThr(s, me, s.threads[me].(call := NoCall,
      timedout := if op.WaitOp? then false else s.threads[me].timedout,
      interrupt := if ret == Err(EINTR) then false else s.threads[me].interrupt)), me, op, ret)
  }

  /** After `_st_vp_schedule` in `st_mutex_lock`. */
  function LockRet(s: State, me: Tid, m: Mid): Ret
    requires me in s.threads && m in s.mutexes
  {
    if s.threads[me].interrupt && s.mutexes[m].owner != Some(me) then Err(EINTR) else Ok(0)
  }

  function LockTail(s: State, me: Tid, m: Mid): State
    requires me in s.threads && m in s.mutexes
  {
    var mu := s.mutexes[m];
    Finish(SetMutex(s, m, mu.(waitq := Remove(mu.waitq, me))), me, LockOp(m), LockRet(s, me, m))
  }

  /** After `_st_vp_schedule` in `st_cond_timedwait`: an interrupt overrides a timeout. */
  function WaitRet(th: Thr): Ret {
    if th.interrupt then Err(EINTR) else if th.timedout then Err(ETIME) else Ok(0)
  }

  function WaitTail(s: State, me: Tid, c: Cid): State
    requires me in s.threads && c in s.conds
  {
    Finish(s.(conds := s.conds[c := Remove(s.conds[c], me)]), me, WaitOp(c), WaitRet(s.threads[me]))
  }

  /** After `_st_vp_schedule` in `st_poll`: a request still on the I/O queue is taken off and
      unregistered, otherwise the ready entries are counted. */
  function PollRet(s: State, me: Tid, r: Rid): Ret
    requires me in s.threads && r in s.reqs
  {
    if s.threads[me].interrupt then Err(EINTR)
    else Ok(if s.reqs[r].onIoq then 0 else CountReady(s.reqs[r].pds))
  }

  function PollTail(s: State, me: Tid, r: Rid): State
    requires me in s.threads && r in s.reqs
  {
    var rq := s.reqs[r];
    var s' := if rq.onIoq then
                s.(ioq := Remove(s.ioq, r), ev := Unregister(s.ev, rq.pds),
                   reqs := s.reqs[r := rq.(onIoq := false)], unregistered := s.unregistered + [r])
              else s;
    Finish(s', me, PollOp(r), PollRet(s, me, r))
  }

  predicate CanReturn(s: State, me: Tid) {
    me in s.threads &&
    match s.threads[me].call
    case NoCall => false
    case Locking(m) => m in s.mutexes
    case Waiting(c) => c in s.conds
    case Polling(r) => r in s.reqs
    case Napping => true
  }

  function ReturnStep(s: State, me: Tid): State
    requires CanReturn(s, me)
  {
    match s.threads[me].call
    case Locking(m) => LockTail(s, me, m)
    case Waiting(c) => WaitTail(s, me, c)
    case Polling(r) => PollTail(s, me, r)
    case Napping => Finish(s, me, SleepOp, Ok(0))
  }

  // ----- the idle loop

  predicate Hit(pd: PollFd, ready: Ready) {
    (pd.pollin && pd.fd in ready.r) || (pd.pollout && pd.fd in ready.w) || (pd.pollpri && pd.fd in ready.e)
  }

  /** The scan of one entry: an entry that `select` does not mention keeps its old `revents`. */
  function Mark(pd: PollFd, ready: Ready): PollFd {
    if pd.fd !in ready.r && pd.fd !in ready.w && pd.fd !in ready.e then pd
    else pd.(revents := Hit(pd, ready))
  }

  function MarkAll(pds: seq<PollFd>, ready: Ready): seq<PollFd> {
    seq(|pds|, i requires 0 <= i < |pds| => Mark(pds[i], ready))
  }

  predicate Notified(pds: seq<PollFd>, ready: Ready) {
    exists pd :: pd in pds && Hit(pd, ready)
  }

  /** One request in the loop of `_st_select_dispatch_once`. Nothing here looks at the state of
      the polling thread. */
  function DispatchReq(s: State, r: Rid, ready: Ready): State {
    if r !in s.reqs || s.reqs[r].tid !in s.threads then s
    else
      var rq := s.reqs[r];
      var pds := MarkAll(rq.pds, ready);
      if !Notified(rq.pds, ready) then s.(reqs := s.reqs[r := rq.(pds := pds)])
      else
        Requeue(s.(ioq := Remove(s.ioq, r), ev := UnregisterDispatched(s.ev, rq.pds),
                   reqs := s.reqs[r := rq.(pds := pds, onIoq := false)],
                   unregistered := s.unregistered + [r]), rq.tid, IoReady)
  }

  function DispatchFrom(s: State, q: seq<Rid>, ready: Ready): State
    decreases q
  {
    if q == [] then s else DispatchFrom(DispatchReq(s, q[0], ready), q[1..], ready)
  }

  /** `_st_select_dispatch`: one pass over the I/O queue per select group. */
  function Dispatch(s: State, passes: seq<Ready>): State
    decreases passes
  {
    if passes == [] then s
    else Dispatch(DispatchFrom(s, s.ioq, passes[0]), passes[1..])
  }

  /** The order in which `_st_vp_check_clock` empties the heap: by due time, ties in any order. */
  ghost predicate ExpiryOrder(s: State, now: nat, order: seq<Tid>) {
    && NoDup(order)
    && (forall t :: t in order <==> t in s.sleepq && t in s.threads && s.threads[t].due <= now)
    && (forall i, j :: 0 <= i < j < |order| ==>
          order[i] in s.threads && order[j] in s.threads && s.threads[order[i]].due <= s.threads[order[j]].due)
  }

  function ExpireAll(s: State, order: seq<Tid>): State
    decreases order
  {
    if order == [] then s
    else ExpireAll(if order[0] in s.threads then Requeue(s, order[0], Timer) else s, order[1..])
  }

  /** Dispatch, then the clock check, then `_st_vp_schedule`. */
  function IdleStep(s: State, passes: seq<Ready>, now: nat, order: seq<Tid>): State {
    Schedule(ExpireAll(Dispatch(s, passes).(lastClock := now), order))
  }

  // ----- the machine

  predicate InUser(s: State) {
    s.current.Run? && s.current.t in s.threads && s.threads[s.current.t].call == NoCall
  }

  ghost predicate Enabled(s: State, step: Step) {
    match step
    case Create(t) => t !in s.threads && (s.current == Native || InUser(s))
    case Lock(m) => InUser(s) && m in s.mutexes
    case TryLock(m) => InUser(s) && m in s.mutexes
    case Unlock(m) => InUser(s) && m in s.mutexes
    case Wait(c, _) => InUser(s) && c in s.conds
    case Notify(c, _) => InUser(s) && c in s.conds
    case Poll(r, _, _) => InUser(s) && r !in s.reqs
    case Sleep(_) => InUser(s)
    case Interrupt(t) => InUser(s) && t in s.threads
    case Exit => InUser(s)
    case Return => s.current.Run? && CanReturn(s, s.current.t)
    case IdleTurn(passes, now, order) =>
      !s.current.Run? && ExpiryOrder(Dispatch(s, passes), now, order)
  }

  ghost function Apply(s: State, step: Step): State
    requires Enabled(s, step)
  {
    match step
    case Create(t) => SetThr(s, t, Thr(Runnable, false, false, false, 0, NoCall, [])).(runq := s.runq + [t])
    case Lock(m) => LockStep(s, s.current.t, m)
    case TryLock(m) => TryLockStep(s, s.current.t, m)
    case Unlock(m) => UnlockStep(s, s.current.t, m)
    case Wait(c, timeout) => WaitStep(s, s.current.t, c, timeout)
    case Notify(c, broadcast) => NotifyFrom(s, s.conds[c], broadcast)
    case Poll(r, pds, timeout) => PollStep(s, s.current.t, r, pds, timeout)
    case Sleep(usecs) => SleepStep(s, s.current.t, usecs)
    case Interrupt(t) => InterruptStep(s, t)
    case Exit => SetThr(s, s.current.t, s.threads[s.current.t].(state := Zombie)).(current := Native)
    case Return => ReturnStep(s, s.current.t)
    case IdleTurn(passes, now, order) => IdleStep(s, passes, now, order)
  }

  /** After `st_init`: no threads, the native fiber runs. */
  ghost function Init(ms: set<Mid>, cs: set<Cid>): State {
    State(map[], Native, [], {}, map m | m in ms :: Mutex(None, []), map c | c in cs :: [],
          map[], [], EventSys(map[], 0), [], 0, [])
  }
}
