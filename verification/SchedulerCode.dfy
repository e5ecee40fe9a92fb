/** The calls of sched.c, sync.c and event.c as they run, in place, on the fields of the
    processor. Every call keeps the invariant, takes its step of the machine, and keeps its
    promise to the caller. A blocking call is in two methods, up to the switch to another
    thread and from there on; the first has no result if it has switched. */
module SchedulerCode {
  import opened Lists
  import opened Threads
  import opened PollSet
  import opened Scheduler
  import opened SchedulerInv
  import opened SchedulerDispatch
  import opened SchedulerWakeups
  import opened SchedulerCalls

  /** A sleeper that nobody precedes, the one at the root of the timeout heap. */
  ghost predicate Earliest(threads: map<Tid, Thr>, sleepq: set<Tid>, t: Tid) {
    && t in sleepq && t in threads
    && forall u :: u in sleepq && u in threads ==> threads[t].due <= threads[u].due
  }

  lemma {:induction false} HasEarliest(threads: map<Tid, Thr>, sleepq: set<Tid>) returns (t: Tid)
    requires sleepq != {} && sleepq <= threads.Keys
    ensures Earliest(threads, sleepq, t)
    decreases |sleepq|
  {
    t :| t in sleepq;
    var rest := sleepq - {t};
    if rest == {} {
      assert forall u :: u in sleepq ==> u == t || u in rest;
    } else {
      var r := HasEarliest(threads, rest);
      assert forall u :: u in sleepq ==> u == t || u in rest;
      if threads[r].due < threads[t].due {
        t := r;
      }
    }
  }

  lemma {:induction false} ExpireAppend(s: State, order: seq<Tid>, t: Tid)
    requires t in s.threads
    ensures t in ExpireAll(s, order).threads
    ensures ExpireAll(s, order + [t]) == Requeue(ExpireAll(s, order), t, Timer)
    decreases order
  {
    if order == [] {
      assert [t][1..] == [];
    } else {
      ExpireAppend(if order[0] in s.threads then Requeue(s, order[0], Timer) else s, order[1..], t);
      assert (order + [t])[1..] == order[1..] + [t];
    }
  }

  lemma SameEarliest(threads: map<Tid, Thr>, threads': map<Tid, Thr>, sleepq: set<Tid>, t: Tid)
    requires threads.Keys == threads'.Keys && forall u :: u in threads ==> threads[u].due == threads'[u].due
    requires Earliest(threads', sleepq, t)
    ensures Earliest(threads, sleepq, t)
  {
  }

  /** How far the clock check has come: the sleepers in `gone` have been woken, in due order,
      and none of those left is due before them. */
  ghost predicate Expiring(s: State, now: nat, gone: seq<Tid>, sleepq: set<Tid>) {
    && NoDup(gone)
    && (forall t :: t in gone <==> t in s.sleepq && t !in sleepq)
    && sleepq <= s.sleepq <= s.threads.Keys
    && (forall t :: t in gone ==> s.threads[t].due <= now)
    && (forall i, j :: 0 <= i < j < |gone| ==> s.threads[gone[i]].due <= s.threads[gone[j]].due)
    && (forall t, u :: t in gone && u in sleepq ==> s.threads[t].due <= s.threads[u].due)
  }

  lemma ExpiringNext(s: State, now: nat, gone: seq<Tid>, sleepq: set<Tid>, t: Tid)
    requires Expiring(s, now, gone, sleepq) && Earliest(s.threads, sleepq, t) && s.threads[t].due <= now
    ensures Expiring(s, now, gone + [t], sleepq - {t})
  {
    var gone' := gone + [t];
    assert t !in gone;
    AppendNoDup(gone, t);
    forall i, j | 0 <= i < j < |gone'|
      ensures s.threads[gone'[i]].due <= s.threads[gone'[j]].due
    {
      assert gone'[i] in gone;
    }
  }

  lemma ExpiringNil(s: State, now: nat)
    requires InvAt(s, None)
    ensures Expiring(s, now, [], s.sleepq)
  {
  }

  lemma ExpiringDone(s: State, now: nat, gone: seq<Tid>, sleepq: set<Tid>)
    requires Expiring(s, now, gone, sleepq)
    requires sleepq == {} || exists t :: Earliest(s.threads, sleepq, t) && s.threads[t].due > now
    ensures ExpiryOrder(s, now, gone)
  {
    forall i, j | 0 <= i < j < |gone|
      ensures gone[i] in s.threads && gone[j] in s.threads
    {
      assert gone[i] in gone && gone[j] in gone;
    }
  }

  /** The state of the clock check as the code holds it. */
  lemma ExpiringState(s: State, now: nat, gone: seq<Tid>, sleepq: set<Tid>)
    requires InvAt(s, None) && Expiring(s, now, gone, sleepq)
    ensures var s' := ExpireAll(s, gone);
            && InvAt(s', None) && s'.sleepq == sleepq <= s'.threads.Keys && s'.threads.Keys == s.threads.Keys
            && (forall t :: t in s.threads ==> s'.threads[t].due == s.threads[t].due)
            && (forall t :: t in sleepq ==> s'.threads[t].onSleepq)
  {
    forall t | t in s.sleepq
      ensures s.threads[t].onSleepq
    {
      assert ThreadOk(s, None, t);
    }
    ExpireInv(s, gone);
    hide InvAt;
    ClockMoves(s, gone);
    ClockDues(s, gone);
  }

  lemma RequestsExist(s: State)
    requires InvAt(s, None)
    ensures forall r :: r in s.ioq ==> r in s.reqs && s.reqs[r].tid in s.threads
    ensures s.sleepq <= s.threads.Keys
  {
  }

  lemma RequestFrame(s: State, r: Rid, ready: Ready)
    ensures var s' := DispatchReq(s, r, ready);
            && s'.threads.Keys == s.threads.Keys && s'.reqs.Keys == s.reqs.Keys
            && forall x :: x in s.reqs ==> s'.reqs[x].tid == s.reqs[x].tid
  {
    hide MarkAll, Notified, UnregisterDispatched, Remove;
  }

  lemma WaitersExist(s: State, m: Mid)
    requires Inv(s) && m in s.mutexes
    ensures forall t :: t in s.mutexes[m].waitq ==> t in s.threads
  {
    assert MutexOk(s, m);
  }

  lemma SignalTargetsExist(s: State, c: Cid)
    requires Inv(s) && c in s.conds
    ensures forall t :: t in s.conds[c] ==> t in s.threads
  {
    assert CondOk(s, c);
  }

  class Processor {
    var threads: map<Tid, Thr>
    var current: Current
    var runq: seq<Tid>
    var sleepq: set<Tid>
    var mutexes: map<Mid, Mutex>
    var conds: map<Cid, seq<Tid>>
    var reqs: map<Rid, Request>
    var ioq: seq<Rid>
    var ev: EventSys
    var unregistered: seq<Rid>
    var lastClock: nat
    var log: seq<Event>

    function Snapshot(): State
      reads this
    {
      State(threads, current, runq, sleepq, mutexes, conds, reqs, ioq, ev, unregistered, lastClock, log)
    }

    ghost predicate Valid()
      reads this
    {
      Inv(Snapshot())
    }

    /** `st_init`, with the mutexes and condition variables that the program will use. */
    constructor (ms: set<Mid>, cs: set<Cid>)
      ensures Valid() && Snapshot() == Init(ms, cs)
    {
      threads, current, runq, sleepq := map[], Native, [], {};
      mutexes, conds := map m | m in ms :: Mutex(None, []), map c | c in cs :: [];
      reqs, ioq, ev, unregistered, lastClock, log := map[], [], EventSys(map[], 0), [], 0, [];
      new;
      InitInv(ms, cs);
    }

    // ----- pieces of calls

    /** The wake-up statements shared by the loops. */
    method WakeUp(t: Tid, cause: Cause)
      requires t in threads && cause in {Signal, IoReady}
      modifies this`threads, this`sleepq, this`runq
      ensures Snapshot() == Requeue(old(Snapshot()), t, cause)
    {
      var th := threads[t];
      if th.onSleepq {
        sleepq := sleepq - {t};
        th := th.(onSleepq := false);
      }
      th := th.(state := Runnable, causes := th.causes + [cause]);
      threads := threads[t := th];
      runq := runq + [t];
    }

    /** `_st_vp_schedule`: if the caller has blocked or is the idle loop, the head of the run
        queue runs, and the processor idles only if there is none. */
    method VpSchedule()
      modifies this`threads, this`current, this`runq
      ensures Snapshot() == Schedule(old(Snapshot()))
      ensures SchedulePromise(old(Snapshot()), Snapshot())
    {
      hide SchedulePromise;
      ScheduleKept(Snapshot());
      var next: Option<Tid> := None;
      if runq != [] {
        next := Some(runq[0]);
        runq := runq[1..];
      }
      if next == None || next.value !in threads || threads[next.value].state != Runnable {
        current := Idle;
        return;
      }
      var t := next.value;
      if current == Run(t) {
        runq := runq + [t];
        current := Idle;
        return;
      }
      threads := threads[t := threads[t].(state := Running)];
      current := Run(t);
    }

    /** The interrupt test at the head of every blocking call. */
    method TestInterrupt(me: Tid, op: Op) returns (interrupted: bool)
      requires me in threads
      modifies this`threads, this`log
      ensures interrupted == old(threads[me].interrupt)
      ensures Snapshot() == if interrupted then Logged(ClearInterrupt(old(Snapshot()), me), me, op, Err(EINTR))
                            else old(Snapshot())
    {
      interrupted := threads[me].interrupt;
      if interrupted {
        threads := threads[me := threads[me].(interrupt := false)];
        log := log + [Event(me, op, Err(EINTR))];
      }
    }

    /** The end of a blocking call. */
    method Leave(me: Tid, op: Op, ret: Ret)
      requires me in threads
      modifies this`threads, this`log
      ensures Snapshot() == Finish(old(Snapshot()), me, op, ret)
    {
      var th := threads[me].(call := NoCall);
      if op.WaitOp? {
        th := th.(timedout := false);
      }
      if ret == Err(EINTR) {
        th := th.(interrupt := false);
      }
      threads := threads[me := th];
      log := log + [Event(me, op, ret)];
    }

    /** `_ST_ADD_SLEEPQ`, on the set that the timeout heap holds. */
    method AddSleepq(me: Tid, timeout: nat)
      requires me in threads
      modifies this`threads, this`sleepq
      ensures Snapshot() == AddSleep(old(Snapshot()), me, timeout)
    {
      threads := threads[me := threads[me].(due := lastClock + timeout, onSleepq := true)];
      sleepq := sleepq + {me};
    }

    // ----- the loops of event.c

    /** `_st_select_pollset_add`. */
    method PollsetAdd(pds: seq<PollFd>)
      modifies this`ev
      ensures ev == Register(old(ev), pds)
    {
      for i := 0 to |pds|
        invariant ev == Register(old(ev), pds[..i])
      {
        var pd := pds[i];
        assert pds[..i + 1][..i] == pds[..i];
        if pd.fd <= 0 || pd.NoEvents() {
          continue;
        }
        if Group(pd.fd) >= ev.groups {
          ev := ev.(groups := Group(pd.fd) + 1);
        }
        if pd.pollin {
          ev := Add(ev, In, pd.fd);
        }
        if pd.pollout {
          ev := Add(ev, Out, pd.fd);
        }
        if pd.pollpri {
          ev := Add(ev, Pri, pd.fd);
        }
      }
      assert pds[..|pds|] == pds;
    }

    /** The three decrements of one entry. */
    method CutEntry(pd: PollFd)
      modifies this`ev
      ensures ev == CutAll(old(ev), pd)
    {
      if pd.pollin {
        ev := Cut(ev, In, pd.fd);
      }
      if pd.pollout {
        ev := Cut(ev, Out, pd.fd);
      }
      if pd.pollpri {
        ev := Cut(ev, Pri, pd.fd);
      }
    }

    /** `_st_select_pollset_del`. */
    method PollsetDel(pds: seq<PollFd>)
      modifies this`ev
      ensures ev == Unregister(old(ev), pds)
    {
      for i := 0 to |pds|
        invariant ev == Unregister(old(ev), pds[..i])
      {
        assert pds[..i + 1][..i] == pds[..i];
        if pds[i].fd <= 0 || pds[i].NoEvents() || Group(pds[i].fd) >= ev.groups {
          continue;
        }
        CutEntry(pds[i]);
      }
      assert pds[..|pds|] == pds;
    }

    /** The unregister loop of `_st_select_dispatch_once`. `strays` is whether it has indexed the
        table of groups below its start. */
    method DispatchDel(pds: seq<PollFd>) returns (strays: bool)
      modifies this`ev
      ensures ev == UnregisterDispatched(old(ev), pds)
      ensures strays <==> exists pd :: pd in pds && pd.fd <= -199
    {
      strays := false;
      for i := 0 to |pds|
        invariant ev == UnregisterDispatched(old(ev), pds[..i])
        invariant strays <==> exists j :: 0 <= j < i && pds[j].fd <= -199
      {
        assert pds[..i + 1][..i] == pds[..i];
        var gfd := Group(pds[i].fd);
        NegativeGroup(pds[i].fd);
        if gfd >= ev.groups {
          continue;
        }
        strays := strays || gfd < 0;
        CutEntry(pds[i]);
      }
      assert pds[..|pds|] == pds;
    }

    /** The scan loop of `_st_select_dispatch_once` over one request. */
    method Scan(pds: seq<PollFd>, ready: Ready) returns (marked: seq<PollFd>, notify: bool)
      ensures marked == MarkAll(pds, ready) && Marked(pds, marked, ready)
      ensures (notify <==> Notified(pds, ready)) && (notify <==> Served(pds, ready))
    {
      hide Marked, Served;
      ScanSpec(pds, ready);
      marked, notify := [], false;
      for i := 0 to |pds|
        invariant |marked| == i && forall j :: 0 <= j < i ==> marked[j] == Mark(pds[j], ready)
        invariant notify <==> exists j :: 0 <= j < i && Hit(pds[j], ready)
      {
        var pd := pds[i];
        var setr, setw, sete := pd.fd in ready.r, pd.fd in ready.w, pd.fd in ready.e;
        if setr || setw || sete {
          var revents := (pd.pollin && setr) || (pd.pollout && setw) || (pd.pollpri && sete);
          pd := pd.(revents := revents);
          if revents {
            notify := true;
          }
        }
        marked := marked + [pd];
      }
    }

    /** The loop of `_st_select_dispatch_once` over the I/O queue. */
    method DispatchOnce(ready: Ready)
      requires forall r :: r in ioq ==> r in reqs && reqs[r].tid in threads
      modifies this
      ensures Snapshot() == DispatchFrom(old(Snapshot()), old(ioq), ready)
      ensures Queued(old(Snapshot())) ==> PassDone(old(Snapshot()), Snapshot(), old(ioq), ready)
    {
      hide DispatchReq, PassDone;
      if Queued(Snapshot()) {
        PassSpec(Snapshot(), ioq, ready);
      }
      hide Queued;
      var q := ioq;
      ghost var s0 := Snapshot();
      for i := 0 to |q|
        invariant threads.Keys == s0.threads.Keys && reqs.Keys == s0.reqs.Keys
        invariant forall r :: r in q ==> reqs[r].tid == s0.reqs[r].tid
        invariant DispatchFrom(s0, q, ready) == DispatchFrom(Snapshot(), q[i..], ready)
      {
        assert q[i..][1..] == q[i + 1..];
        assert q[i] in q;
        RequestFrame(Snapshot(), q[i], ready);
        DispatchRequest(q[i], ready);
      }
    }

    method DispatchRequest(r: Rid, ready: Ready)
      requires r in reqs && reqs[r].tid in threads
      modifies this
      ensures Snapshot() == DispatchReq(old(Snapshot()), r, ready)
    {
      hide MarkAll, Notified, UnregisterDispatched, Remove, Requeue;
      var rq := reqs[r];
      var marked, notify := Scan(rq.pds, ready);
      if notify {
        TakeOff(r, marked);
        WakeUp(rq.tid, IoReady);
      } else {
        reqs := reqs[r := rq.(pds := marked)];
      }
    }

    /** The request is off the queue and the counters, with its entries marked. */
    method TakeOff(r: Rid, marked: seq<PollFd>)
      requires r in reqs
      modifies this`ioq, this`reqs, this`unregistered, this`ev
      ensures var s, rq := old(Snapshot()), old(reqs[r]);
              Snapshot() == s.(ioq := Remove(s.ioq, r), ev := UnregisterDispatched(s.ev, rq.pds),
                               reqs := s.reqs[r := rq.(pds := marked, onIoq := false)],
                               unregistered := s.unregistered + [r])
    {
      hide UnregisterDispatched, Remove;
      var rq := reqs[r];
      ioq := Remove(ioq, r);
      reqs := reqs[r := rq.(pds := marked, onIoq := false)];
      unregistered := unregistered + [r];
      var _ := DispatchDel(rq.pds);
    }

    // ----- mutexes

    /** `st_mutex_lock` up to the switch. */
    method MutexLock(m: Mid) returns (rc: Option<Ret>)
      requires Valid() && Enabled(Snapshot(), Lock(m))
      modifies this
      ensures Valid() && Snapshot() == Apply(old(Snapshot()), Lock(m))
      ensures LockPromise(old(Snapshot()), Snapshot(), m, rc)
    {
      hide Inv, Schedule, LockPromise;
      ghost var s := Snapshot();
      StepInv(s, Lock(m));
      var me, mu := current.t, mutexes[m];
      var interrupted := TestInterrupt(me, LockOp(m));
      if interrupted {
        rc := Some(Err(EINTR));
      } else if mu.owner == None {
        mutexes := mutexes[m := mu.(owner := Some(me))];
        log := log + [Event(me, LockOp(m), Ok(0))];
        rc := Some(Ok(0));
      } else if mu.owner == Some(me) {
        log := log + [Event(me, LockOp(m), Err(EDEADLK))];
        rc := Some(Err(EDEADLK));
      } else {
        threads := threads[me := threads[me].(state := LockWait, call := Locking(m), causes := [])];
        mutexes := mutexes[m := mu.(waitq := mu.waitq + [me])];
        ScheduleFrame(Snapshot());
        VpSchedule();
        rc := None;
      }
      LockKept(s, m, rc);
    }

    /** `st_mutex_lock` after the switch. */
    method MutexLocked(m: Mid) returns (rc: Ret)
      requires Valid() && Enabled(Snapshot(), Return) && threads[current.t].call == Locking(m)
      modifies this
      ensures Valid() && Snapshot() == Apply(old(Snapshot()), Return)
      ensures LockedPromise(old(Snapshot()), Snapshot(), m, rc)
    {
      hide Inv, LockedPromise;
      ghost var s := Snapshot();
      StepInv(s, Return);
      var me := current.t;
      mutexes := mutexes[m := mutexes[m].(waitq := Remove(mutexes[m].waitq, me))];
      rc := Ok(0);
      if threads[me].interrupt && mutexes[m].owner != Some(me) {
        rc := Err(EINTR);
      }
      Leave(me, LockOp(m), rc);
      LockedKept(s, m);
    }

    /** `st_mutex_trylock`. */
    method MutexTrylock(m: Mid) returns (rc: Ret)
      requires Valid() && Enabled(Snapshot(), TryLock(m))
      modifies this
      ensures Valid() && Snapshot() == Apply(old(Snapshot()), TryLock(m))
      ensures TryLockPromise(old(Snapshot()), Snapshot(), m, rc)
    {
      hide Inv, TryLockPromise;
      ghost var s := Snapshot();
      StepInv(s, TryLock(m));
      var me := current.t;
      if mutexes[m].owner != None {
        rc := Err(EBUSY);
      } else {
        mutexes := mutexes[m := mutexes[m].(owner := Some(me))];
        rc := Ok(0);
      }
      log := log + [Event(me, TryLockOp(m), rc)];
      TryLockKept(s, m, rc);
    }

    /** The loop of `st_mutex_unlock`: the mutex goes to the first thread still waiting. */
    method PassOn(m: Mid)
      requires m in mutexes && forall t :: t in mutexes[m].waitq ==> t in threads
      modifies this`mutexes, this`threads, this`runq
      ensures var s, mu := old(Snapshot()), old(mutexes[m]);
              var i := FirstIn(s.threads, mu.waitq, LockWait);
              Snapshot() == if i == |mu.waitq| then SetMutex(s, m, mu.(owner := None)) else HandOver(s, m, mu.waitq[i])
    {
      var mu, i := mutexes[m], 0;
      while i < |mu.waitq|
        invariant 0 <= i <= |mu.waitq| && Snapshot() == old(Snapshot())
        invariant forall j :: 0 <= j < i ==> threads[mu.waitq[j]].state != LockWait
      {
        var t := mu.waitq[i];
        if threads[t].state == LockWait {
          mutexes := mutexes[m := mu.(owner := Some(t))];
          threads := threads[t := threads[t].(state := Runnable, causes := threads[t].causes + [Handoff])];
          runq := runq + [t];
          assert FirstIn(old(threads), mu.waitq, LockWait) == i;
          return;
        }
        i := i + 1;
      }
      mutexes := mutexes[m := mu.(owner := None)];
    }

    /** `st_mutex_unlock`. */
    method MutexUnlock(m: Mid) returns (rc: Ret)
      requires Valid() && Enabled(Snapshot(), Unlock(m))
      modifies this
      ensures Valid() && Snapshot() == Apply(old(Snapshot()), Unlock(m))
      ensures UnlockPromise(old(Snapshot()), Snapshot(), m, rc)
    {
      hide Inv, UnlockPromise;
      ghost var s := Snapshot();
      StepInv(s, Unlock(m));
      WaitersExist(s, m);
      var me := current.t;
      if mutexes[m].owner != Some(me) {
        rc := Err(EPERM);
      } else {
        PassOn(m);
        rc := Ok(0);
      }
      log := log + [Event(me, UnlockOp(m), rc)];
      UnlockKept(s, m, rc);
    }

    // ----- condition variables

    /** `st_cond_timedwait` up to the switch. */
    method CondTimedwait(c: Cid, timeout: Option<nat>) returns (rc: Option<Ret>)
      requires Valid() && Enabled(Snapshot(), Wait(c, timeout))
      modifies this
      ensures Valid() && Snapshot() == Apply(old(Snapshot()), Wait(c, timeout))
      ensures WaitPromise(old(Snapshot()), Snapshot(), c, timeout, rc)
    {
      hide Inv, Schedule, WaitPromise;
      ghost var s := Snapshot();
      StepInv(s, Wait(c, timeout));
      var me := current.t;
      var interrupted := TestInterrupt(me, WaitOp(c));
      if interrupted {
        rc := Some(Err(EINTR));
      } else {
        threads := threads[me := threads[me].(state := CondWait, call := Waiting(c), causes := [])];
        conds := conds[c := conds[c] + [me]];
        if timeout.Some? {
          AddSleepq(me, timeout.value);
        }
        ScheduleFrame(Snapshot());
        VpSchedule();
        rc := None;
      }
      WaitKept(s, c, timeout, rc);
    }

    /** `st_cond_timedwait` after the switch. */
    method CondWaited(c: Cid) returns (rc: Ret)
      requires Valid() && Enabled(Snapshot(), Return) && threads[current.t].call == Waiting(c)
      modifies this
      ensures Valid() && Snapshot() == Apply(old(Snapshot()), Return)
      ensures WaitedPromise(old(Snapshot()), Snapshot(), c, rc)
    {
      hide Inv, WaitedPromise;
      ghost var s := Snapshot();
      StepInv(s, Return);
      var me := current.t;
      conds := conds[c := Remove(conds[c], me)];
      rc := Ok(0);
      if threads[me].timedout {
        rc := Err(ETIME);
      }
      if threads[me].interrupt {
        rc := Err(EINTR);
      }
      Leave(me, WaitOp(c), rc);
      WaitedKept(s, c);
    }

    /** `_st_cond_signal`. */
    method CondSignal(c: Cid, broadcast: bool)
      requires Valid() && Enabled(Snapshot(), Notify(c, broadcast))
      modifies this
      ensures Valid() && Snapshot() == Apply(old(Snapshot()), Notify(c, broadcast))
      ensures NotifyPromise(old(Snapshot()), Snapshot(), c, broadcast)
    {
      hide Inv, NotifyPromise, Requeue;
      ghost var s := Snapshot();
      StepInv(s, Notify(c, broadcast));
      SignalTargetsExist(s, c);
      NotifyKept(s, c, broadcast);
      var q, i := conds[c], 0;
      while i < |q|
        invariant 0 <= i <= |q| && threads.Keys == s.threads.Keys
        invariant NotifyFrom(s, q, broadcast) == NotifyFrom(Snapshot(), q[i..], broadcast)
      {
        var t := q[i];
        assert q[i..][1..] == q[i + 1..];
        if threads[t].state == CondWait {
          RequeueOne(Snapshot(), t, Signal);
          WakeUp(t, Signal);
          if !broadcast {
            return;
          }
        }
        i := i + 1;
      }
    }

    // ----- polling, sleeping, interrupting

    method QueueRequest(me: Tid, r: Rid, pds: seq<PollFd>)
      requires me in threads
      modifies this`ev, this`reqs, this`ioq, this`threads
      ensures Snapshot() == PollBlock(old(Snapshot()), me, r, pds)
    {
      hide Register;
      PollsetAdd(pds);
      reqs := reqs[r := Request(me, pds, true)];
      ioq := ioq + [r];
      threads := threads[me := threads[me].(state := IoWait, call := Polling(r), causes := [])];
    }

    /** The request is queued and due, and another thread is scheduled. */
    method PollAndSwitch(me: Tid, r: Rid, pds: seq<PollFd>, timeout: Option<nat>)
      requires me in threads
      modifies this
      ensures var usecs := if timeout.Some? then timeout.value else 1;
              Snapshot() == Schedule(AddSleep(PollBlock(old(Snapshot()), me, r, pds), me, usecs)) && log == old(log)
    {
      hide Schedule, Register;
      QueueRequest(me, r, pds);
      if timeout.Some? {
        AddSleepq(me, timeout.value);
      } else {
        AddSleepq(me, 1);
      }
      ScheduleFrame(Snapshot());
      VpSchedule();
    }

    /** `st_poll` up to the switch. */
    method PollEnter(r: Rid, pds: seq<PollFd>, timeout: Option<nat>) returns (rc: Option<Ret>)
      requires Valid() && Enabled(Snapshot(), Poll(r, pds, timeout))
      modifies this
      ensures Valid() && Snapshot() == Apply(old(Snapshot()), Poll(r, pds, timeout))
      ensures PollPromise(old(Snapshot()), Snapshot(), r, pds, timeout, rc)
    {
      hide Inv, Schedule, PollPromise, Register, AddSleep;
      ghost var s := Snapshot();
      StepInv(s, Poll(r, pds, timeout));
      var me := current.t;
      var interrupted := TestInterrupt(me, PollOp(r));
      if interrupted {
        rc := Some(Err(EINTR));
      } else {
        PollAndSwitch(me, r, pds, timeout);
        rc := None;
      }
      PollKept(s, r, pds, timeout, rc);
    }

    /** The count of the entries that are ready. */
    method ReadyEntries(pds: seq<PollFd>) returns (n: nat)
      ensures n == CountReady(pds)
    {
      n := 0;
      for i := 0 to |pds|
        invariant n == CountReady(pds[..i])
      {
        assert pds[..i + 1][..i] == pds[..i];
        if pds[i].revents {
          n := n + 1;
        }
      }
      assert pds[..|pds|] == pds;
    }

    /** The request is still on the I/O queue and is taken off. */
    method Withdraw(r: Rid)
      requires r in reqs
      modifies this`ioq, this`ev, this`reqs, this`unregistered
      ensures var s, rq := old(Snapshot()), old(reqs[r]);
              Snapshot() == s.(ioq := Remove(s.ioq, r), ev := Unregister(s.ev, rq.pds),
                               reqs := s.reqs[r := rq.(onIoq := false)], unregistered := s.unregistered + [r])
    {
      hide Unregister, Remove;
      ioq := Remove(ioq, r);
      PollsetDel(reqs[r].pds);
      reqs := reqs[r := reqs[r].(onIoq := false)];
      unregistered := unregistered + [r];
    }

    /** `st_poll` after the switch. */
    method PollLeave(r: Rid) returns (rc: Ret)
      requires Valid() && Enabled(Snapshot(), Return) && threads[current.t].call == Polling(r)
      modifies this
      ensures Valid() && Snapshot() == Apply(old(Snapshot()), Return)
      ensures PolledPromise(old(Snapshot()), Snapshot(), r, rc)
    {
      hide Inv, PolledPromise, Unregister, CountReady, Remove;
      ghost var s := Snapshot();
      StepInv(s, Return);
      PolledKept(s, r);
      var me, rq, n := current.t, reqs[r], 0;
      if rq.onIoq {
        Withdraw(r);
      } else {
        n := ReadyEntries(rq.pds);
      }
      rc := if threads[me].interrupt then Err(EINTR) else Ok(n);
      Leave(me, PollOp(r), rc);
    }

    /** `st_usleep` up to the switch. */
    method Usleep(usecs: Option<nat>) returns (rc: Option<Ret>)
      requires Valid() && Enabled(Snapshot(), Sleep(usecs))
      modifies this
      ensures Valid() && Snapshot() == Apply(old(Snapshot()), Sleep(usecs))
      ensures SleepPromise(old(Snapshot()), Snapshot(), usecs, rc)
    {
      hide Inv, Schedule, SleepPromise;
      ghost var s := Snapshot();
      StepInv(s, Sleep(usecs));
      var me := current.t;
      var interrupted := TestInterrupt(me, SleepOp);
      if interrupted {
        rc := Some(Err(EINTR));
      } else {
        if usecs.Some? {
          threads := threads[me := threads[me].(state := Sleeping, call := Napping, causes := [])];
          AddSleepq(me, usecs.value);
        } else {
          threads := threads[me := threads[me].(state := Suspended, call := Napping, causes := [])];
        }
        ScheduleFrame(Snapshot());
        VpSchedule();
        rc := None;
      }
      SleepKept(s, usecs, rc);
    }

    /** `st_usleep` after the switch: 0, whatever woke it, and the interrupt flag stays. */
    method Slept() returns (rc: Ret)
      requires Valid() && Enabled(Snapshot(), Return) && threads[current.t].call == Napping
      modifies this
      ensures Valid() && Snapshot() == Apply(old(Snapshot()), Return)
      ensures rc == Ok(0) && Stays(old(Snapshot()), Snapshot(), old(threads[current.t]).(call := NoCall))
      ensures old(threads[current.t].causes) == [Interrupted] ==> old(threads[current.t].interrupt)
    {
      hide Inv;
      StepInv(Snapshot(), Return);
      SleepReturn(Snapshot());
      rc := Ok(0);
      Leave(current.t, SleepOp, rc);
    }

    /** The statements that wake a blocked thread which is interrupted. */
    method Rouse(t: Tid)
      requires t in threads
      modifies this`threads, this`sleepq, this`runq
      ensures Snapshot() == Requeue(old(Snapshot()), t, Interrupted)
    {
      var th := threads[t].(interrupt := true);
      if th.onSleepq {
        sleepq := sleepq - {t};
        th := th.(onSleepq := false);
      }
      threads := threads[t := th.(state := Runnable, causes := th.causes + [Interrupted])];
      runq := runq + [t];
    }

    /** `st_thread_interrupt`. */
    method ThreadInterrupt(t: Tid)
      requires Valid() && Enabled(Snapshot(), Interrupt(t))
      modifies this
      ensures Valid() && Snapshot() == Apply(old(Snapshot()), Interrupt(t))
      ensures InterruptPromise(old(Snapshot()), Snapshot(), t)
    {
      hide Inv, InterruptPromise, Requeue;
      StepInv(Snapshot(), Interrupt(t));
      InterruptKept(Snapshot(), t);
      var th := threads[t];
      if th.state == Zombie {
        return;
      }
      if th.state == Running || th.state == Runnable {
        threads := threads[t := th.(interrupt := true)];
        return;
      }
      Rouse(t);
    }

    // ----- threads and the idle loop

    /** `st_thread_create`: the new thread runs after all that are runnable. */
    method ThreadCreate(t: Tid)
      requires Valid() && Enabled(Snapshot(), Create(t))
      modifies this
      ensures Valid() && Snapshot() == Apply(old(Snapshot()), Create(t))
      ensures runq == old(runq) + [t] && threads.Keys == old(threads).Keys + {t} && threads == old(threads)[t := threads[t]]
      ensures threads[t].state == Runnable && threads[t].call == NoCall
      ensures !threads[t].onSleepq && !threads[t].interrupt && !threads[t].timedout
    {
      hide Inv;
      StepInv(Snapshot(), Create(t));
      threads := threads[t := Thr(Runnable, false, false, false, 0, NoCall, [])];
      runq := runq + [t];
    }

    /** `st_thread_exit` of a thread nobody joins: the native fiber takes over. */
    method ThreadExit()
      requires Valid() && Enabled(Snapshot(), Exit)
      modifies this
      ensures Valid() && Snapshot() == Apply(old(Snapshot()), Exit)
      ensures var me := old(current).t;
              && me in threads && me !in runq && me !in sleepq && threads[me].state == Zombie
              && threads == old(threads)[me := threads[me]] && runq == old(runq) && mutexes == old(mutexes) && current == Native
    {
      CallerNotQueued(Snapshot());
      hide Inv;
      StepInv(Snapshot(), Exit);
      threads := threads[current.t := threads[current.t].(state := Zombie)];
      current := Native;
    }

    /** The head of the sleep queue. */
    method Root() returns (t: Tid)
      requires sleepq != {} && sleepq <= threads.Keys
      ensures Earliest(threads, sleepq, t)
    {
      ghost var w := HasEarliest(threads, sleepq);
      t :| t in sleepq && forall u :: u in sleepq ==> threads[t].due <= threads[u].due;
    }

    /** The thread at the head of the sleep queue is due. */
    method Expire(t: Tid)
      requires t in threads && threads[t].onSleepq
      modifies this`threads, this`sleepq, this`runq
      ensures Snapshot() == Requeue(old(Snapshot()), t, Timer)
    {
      var th := threads[t];
      sleepq := sleepq - {t};
      th := th.(onSleepq := false);
      if th.state == CondWait {
        th := th.(timedout := true);
      }
      threads := threads[t := th.(state := Runnable, causes := th.causes + [Timer])];
      runq := runq + [t];
    }

    /** The loop of `_st_vp_check_clock`, on the set of sleepers. */
    method CheckClock(now: nat) returns (ghost order: seq<Tid>)
      requires InvAt(Snapshot(), None)
      modifies this`threads, this`sleepq, this`runq, this`lastClock
      ensures ExpiryOrder(old(Snapshot()), now, order)
      ensures Snapshot() == ExpireAll(old(Snapshot()).(lastClock := now), order)
    {
      hide InvAt, Expiring, Earliest, ExpiryOrder;
      ghost var s := Snapshot();
      ClockInv(s, now);
      s := s.(lastClock := now);
      ExpiringNil(s, now);
      lastClock := now;
      order := [];
      while sleepq != {}
        invariant Expiring(s, now, order, sleepq) && Snapshot() == ExpireAll(s, order)
        decreases |sleepq|
      {
        hide ExpireAll, Requeue;
        ExpiringState(s, now, order, sleepq);
        var t := Root();
        SameEarliest(s.threads, threads, sleepq, t);
        if threads[t].due > now {
          break;
        }
        ExpiringNext(s, now, order, sleepq, t);
        ExpireAppend(s, order, t);
        RequeueOne(Snapshot(), t, Timer);
        Expire(t);
        order := order + [t];
      }
      ExpiringDone(s, now, order, sleepq);
      SameExpiryOrder(old(Snapshot()), now, order);
    }

    /** One turn of the idle loop. The native fiber may take it if it is safe; the idle fiber
        always. */
    method VpIdle(passes: seq<Ready>, now: nat) returns (ghost order: seq<Tid>)
      requires Valid() && !current.Run? && (current == Native ==> SafeDispatch(Snapshot(), passes))
      modifies this
      ensures Valid() && Enabled(old(Snapshot()), IdleTurn(passes, now, order))
      ensures Snapshot() == Apply(old(Snapshot()), IdleTurn(passes, now, order))
      ensures TurnPromise(old(Snapshot()), Snapshot(), passes, now)
    {
      hide Inv, InvAt, SafePass, DispatchFrom, ExpiryOrder, ExpireAll, Schedule, TurnPromise;
      ghost var s := Snapshot();
      SafeTurn(s, passes);
      assert passes[0..] == passes;
      for i := 0 to |passes|
        invariant InvAt(Snapshot(), None) && SafeDispatch(Snapshot(), passes[i..])
        invariant Dispatch(s, passes) == Dispatch(Snapshot(), passes[i..])
      {
        assert passes[i..][0] == passes[i] && passes[i..][1..] == passes[i + 1..];
        RequestsExist(Snapshot());
        SafePassInv(Snapshot(), passes[i]);
        DispatchOnce(passes[i]);
      }
      order := CheckClock(now);
      VpSchedule();
      StepInv(s, IdleTurn(passes, now, order));
      TurnKept(s, passes, now, order);
    }
  }
}
