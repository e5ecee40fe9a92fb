/** What `_st_select_dispatch` does, said without its own tests: which requests it takes off the
    queue, which entries it marks, and which threads it wakes, for whatever `select` reports. */
module SchedulerDispatch {
  import opened Lists
  import opened Threads
  import opened PollSet
  import opened Scheduler
  import opened SchedulerInv

  /** The descriptors that `select` reports for an event. */
  ghost function Reported(ready: Ready, k: Kind): set<int> {
    match k
    case In => ready.r
    case Out => ready.w
    case Pri => ready.e
  }

  /** An entry fires if an event that it wants is reported for its descriptor. */
  ghost predicate Fires(pd: PollFd, ready: Ready) {
    exists k: Kind :: pd.Wants(k) && pd.fd in Reported(ready, k)
  }

  ghost predicate Mentioned(pd: PollFd, ready: Ready) {
    exists k: Kind :: pd.fd in Reported(ready, k)
  }

  /** A request is served if one of its entries fires. */
  ghost predicate Served(pds: seq<PollFd>, ready: Ready) {
    exists pd :: pd in pds && Fires(pd, ready)
  }

  /** Every entry that is mentioned says whether it fires; the others are as they were. */
  ghost predicate Marked(pds: seq<PollFd>, pds': seq<PollFd>, ready: Ready) {
    && |pds'| == |pds|
    && forall i :: 0 <= i < |pds| ==>
         pds'[i] == pds[i].(revents := if Mentioned(pds[i], ready) then Fires(pds[i], ready) else pds[i].revents)
  }

  lemma HitFires(pd: PollFd, ready: Ready)
    ensures Hit(pd, ready) <==> Fires(pd, ready)
    ensures Mark(pd, ready) == pd.(revents := if Mentioned(pd, ready) then Fires(pd, ready) else pd.revents)
  {
    assert pd.pollin == pd.Wants(In) && pd.pollout == pd.Wants(Out) && pd.pollpri == pd.Wants(Pri);
    assert ready.r == Reported(ready, In) && ready.w == Reported(ready, Out) && ready.e == Reported(ready, Pri);
  }

  /** The scan of a request selects it exactly if it is served, and marks its entries. */
  lemma ScanSpec(pds: seq<PollFd>, ready: Ready)
    ensures Notified(pds, ready) <==> Served(pds, ready)
    ensures Marked(pds, MarkAll(pds, ready), ready)
  {
    hide Hit, Mark, Fires, Mentioned;
    forall pd | pd in pds
      ensures Hit(pd, ready) <==> Fires(pd, ready)
    {
      HitFires(pd, ready);
    }
    forall i | 0 <= i < |pds|
      ensures MarkAll(pds, ready)[i] ==
              pds[i].(revents := if Mentioned(pds[i], ready) then Fires(pds[i], ready) else pds[i].revents)
    {
      HitFires(pds[i], ready);
    }
  }

  /** Marking changes nothing that decides whether a request is served. */
  lemma MarkedServed(pds: seq<PollFd>, pds': seq<PollFd>, ready: Ready, next: Ready)
    requires Marked(pds, pds', ready)
    ensures Served(pds', next) <==> Served(pds, next)
  {
    forall i | 0 <= i < |pds|
      ensures Fires(pds'[i], next) <==> Fires(pds[i], next)
    {
      assert forall k: Kind :: pds'[i].Wants(k) == pds[i].Wants(k);
    }
    if pd :| pd in pds && Fires(pd, next) {
      var i :| 0 <= i < |pds| && pds[i] == pd;
      assert pds'[i] in pds';
    }
    if pd :| pd in pds' && Fires(pd, next) {
      var i :| 0 <= i < |pds'| && pds'[i] == pd;
      assert pds[i] in pds;
    }
  }

  /** A thread that I/O has woken: it runs again and sleeps no more, and its flags are as before. */
  ghost function WokenByIo(th: Thr): Thr {
    th.(state := Runnable, onSleepq := false, causes := th.causes + [IoReady])
  }

  /** Every queued request is known, and no thread has two. */
  ghost predicate Queued(s: State) {
    && NoDup(s.ioq)
    && (forall r :: r in s.ioq ==> r in s.reqs && s.reqs[r].tid in s.threads)
    && (forall r, q :: r in s.ioq && q in s.ioq && s.reqs[r].tid == s.reqs[q].tid ==> r == q)
  }

  lemma InvQueued(s: State)
    requires InvAt(s, None)
    ensures Queued(s)
  {
  }

  /** Nothing but threads, queues and requests has changed. */
  ghost predicate SameElsewhere(s: State, s': State) {
    && s'.mutexes == s.mutexes && s'.conds == s.conds && s'.log == s.log && s'.lastClock == s.lastClock
    && s'.current == s.current
  }

  /** The request after the scan. */
  ghost predicate Scanned(rq: Request, rq': Request, ready: Ready) {
    rq'.tid == rq.tid && Marked(rq.pds, rq'.pds, ready) && rq'.onIoq == (rq.onIoq && !Served(rq.pds, ready))
  }

  /** What one request of the loop over the I/O queue does. */
  ghost predicate OneDone(s: State, s': State, r: Rid, ready: Ready)
    requires r in s.reqs && s.reqs[r].tid in s.threads
  {
    var rq := s.reqs[r];
    && SameElsewhere(s, s')
    && r in s'.reqs && Scanned(rq, s'.reqs[r], ready) && s'.reqs == s.reqs[r := s'.reqs[r]]
    && (if Served(rq.pds, ready)
        then s'.ioq == Remove(s.ioq, r) && s'.runq == s.runq + [rq.tid]
             && s'.threads == s.threads[rq.tid := WokenByIo(s.threads[rq.tid])]
        else s'.ioq == s.ioq && s'.runq == s.runq && s'.threads == s.threads)
  }

  lemma OneElsewhere(s: State, s': State, r: Rid, ready: Ready)
    requires r in s.reqs && s.reqs[r].tid in s.threads && OneDone(s, s', r, ready)
    ensures SameElsewhere(s, s')
  {
  }

  lemma OneRequest(s: State, r: Rid, ready: Ready)
    requires r in s.reqs && s.reqs[r].tid in s.threads
    ensures OneDone(s, DispatchReq(s, r, ready), r, ready)
  {
    hide MarkAll, Notified, Served, Marked, UnregisterDispatched, Remove;
    ScanSpec(s.reqs[r].pds, ready);
  }

  /** The threads of the requests in `q` that are served, in queue order. */
  ghost function Owners(reqs: map<Rid, Request>, q: seq<Rid>, ready: Ready): seq<Tid> {
    if q == [] then []
    else (if q[0] in reqs && Served(reqs[q[0]].pds, ready) then [reqs[q[0]].tid] else []) + Owners(reqs, q[1..], ready)
  }

  ghost predicate IsServed(s: State, q: seq<Rid>, ready: Ready, r: Rid) {
    r in q && r in s.reqs && Served(s.reqs[r].pds, ready)
  }

  ghost predicate Wakes(s: State, q: seq<Rid>, ready: Ready, t: Tid) {
    exists r :: IsServed(s, q, ready, r) && s.reqs[r].tid == t
  }

  ghost predicate IoqDone(s: State, s': State, q: seq<Rid>, ready: Ready) {
    forall r :: r in s'.ioq <==> r in s.ioq && !IsServed(s, q, ready, r)
  }

  ghost predicate ReqsDone(s: State, s': State, q: seq<Rid>, ready: Ready) {
    && s'.reqs.Keys == s.reqs.Keys
    && forall r :: r in s.reqs ==> if r in q then Scanned(s.reqs[r], s'.reqs[r], ready) else s'.reqs[r] == s.reqs[r]
  }

  ghost predicate ThreadsDone(s: State, s': State, q: seq<Rid>, ready: Ready) {
    && s'.threads.Keys == s.threads.Keys
    && forall t :: t in s.threads ==>
         s'.threads[t] == if Wakes(s, q, ready, t) then WokenByIo(s.threads[t]) else s.threads[t]
  }

  /** What a pass over the requests `q` does. */
  ghost predicate PassDone(s: State, s': State, q: seq<Rid>, ready: Ready) {
    && SameElsewhere(s, s') && s'.runq == s.runq + Owners(s.reqs, q, ready)
    && IoqDone(s, s', q, ready) && ReqsDone(s, s', q, ready) && ThreadsDone(s, s', q, ready)
  }

  lemma {:induction false} OwnersIn(reqs: map<Rid, Request>, q: seq<Rid>, ready: Ready, r: Rid)
    requires r in q && r in reqs && Served(reqs[r].pds, ready)
    ensures reqs[r].tid in Owners(reqs, q, ready)
  {
    hide Served;
    if q[0] == r {
    } else {
      OwnersIn(reqs, q[1..], ready, r);
    }
  }

  lemma {:induction false} OwnersFrame(reqs: map<Rid, Request>, reqs': map<Rid, Request>, q: seq<Rid>, ready: Ready)
    requires forall r :: r in q ==> (r in reqs <==> r in reqs') && (r in reqs ==> reqs[r] == reqs'[r])
    ensures Owners(reqs, q, ready) == Owners(reqs', q, ready)
  {
    if q == [] {
    } else {
      assert q[0] in q;
      OwnersFrame(reqs, reqs', q[1..], ready);
    }
  }

  /** The first request of a pass and the rest of it. */
  ghost predicate Split(s: State, s1: State, q: seq<Rid>, ready: Ready) {
    && q != [] && NoDup(q) && Queued(s) && (forall r :: r in q ==> r in s.ioq)
    && q[0] in s.reqs && s.reqs[q[0]].tid in s.threads && OneDone(s, s1, q[0], ready)
  }

  /** The other requests are served or not as before. */
  lemma RestServed(s: State, s1: State, q: seq<Rid>, ready: Ready)
    requires Split(s, s1, q, ready)
    ensures forall x :: IsServed(s1, q[1..], ready, x) <==> x != q[0] && IsServed(s, q, ready, x)
    ensures forall x :: x in q[1..] ==> x in q && x != q[0] && x in s1.reqs && s1.reqs[x] == s.reqs[x]
    ensures forall x :: x in q ==> x == q[0] || x in q[1..]
  {
    hide Served, Remove, Marked, WokenByIo;
    assert forall x :: x in q <==> x == q[0] || x in q[1..];
    assert q[0] !in q[1..];
  }

  lemma FirstIoq(s: State, s1: State, s': State, q: seq<Rid>, ready: Ready)
    requires Split(s, s1, q, ready) && IoqDone(s1, s', q[1..], ready)
    ensures IoqDone(s, s', q, ready)
  {
    RestServed(s, s1, q, ready);
    RemoveElems(s.ioq, q[0]);
    hide Served, Remove, Marked, WokenByIo;
    assert q[0] in q;
    assert IsServed(s, q, ready, q[0]) <==> Served(s.reqs[q[0]].pds, ready);
  }

  lemma FirstReqs(s: State, s1: State, s': State, q: seq<Rid>, ready: Ready)
    requires Split(s, s1, q, ready) && ReqsDone(s1, s', q[1..], ready)
    ensures ReqsDone(s, s', q, ready)
  {
    RestServed(s, s1, q, ready);
    hide Served, Remove, Marked, WokenByIo, IsServed, Scanned, Queued;
  }

  /** A thread has one request, the first or another. */
  lemma RestWakes(s: State, s1: State, q: seq<Rid>, ready: Ready, t: Tid)
    requires Split(s, s1, q, ready)
    ensures Wakes(s, q, ready, t) <==> if t == s.reqs[q[0]].tid then Served(s.reqs[q[0]].pds, ready) else Wakes(s1, q[1..], ready, t)
    ensures t == s.reqs[q[0]].tid ==> !Wakes(s1, q[1..], ready, t)
  {
    RestServed(s, s1, q, ready);
    hide Served, Remove, Marked, WokenByIo, Scanned;
    var r, rest := q[0], q[1..];
    assert r in q;
    assert IsServed(s, q, ready, r) <==> Served(s.reqs[r].pds, ready);
    if x :| IsServed(s1, rest, ready, x) && s1.reqs[x].tid == t {
      assert IsServed(s, q, ready, x) && s.reqs[x].tid == t && x != r;
    }
    if x :| IsServed(s, q, ready, x) && s.reqs[x].tid == t && x != r {
      assert IsServed(s1, rest, ready, x) && s1.reqs[x].tid == t;
    }
  }

  lemma FirstThreads(s: State, s1: State, s': State, q: seq<Rid>, ready: Ready)
    requires Split(s, s1, q, ready) && ThreadsDone(s1, s', q[1..], ready)
    ensures ThreadsDone(s, s', q, ready)
  {
    hide Served, Remove, Marked, WokenByIo, Scanned, Queued, Wakes;
    forall t | t in s.threads
      ensures s'.threads[t] == if Wakes(s, q, ready, t) then WokenByIo(s.threads[t]) else s.threads[t]
    {
      RestWakes(s, s1, q, ready, t);
    }
  }

  lemma FirstRunq(s: State, s1: State, s': State, q: seq<Rid>, ready: Ready)
    requires Split(s, s1, q, ready) && s'.runq == s1.runq + Owners(s1.reqs, q[1..], ready)
    ensures s'.runq == s.runq + Owners(s.reqs, q, ready)
  {
    RestServed(s, s1, q, ready);
    hide Served, Remove, Marked, WokenByIo, IsServed, Scanned, Queued;
    OwnersFrame(s.reqs, s1.reqs, q[1..], ready);
  }

  lemma QueuedAfter(s: State, r: Rid, ready: Ready)
    requires Queued(s) && r in s.ioq
    ensures Queued(DispatchReq(s, r, ready))
    ensures forall x :: x in s.ioq && x != r ==> x in DispatchReq(s, r, ready).ioq
  {
    OneRequest(s, r, ready);
    RemoveElems(s.ioq, r);
    hide DispatchReq, Served, Remove, Marked, WokenByIo;
  }

  /** A pass over the I/O queue, for one select group. */
  lemma {:induction false} PassSpec(s: State, q: seq<Rid>, ready: Ready)
    requires Queued(s) && NoDup(q) && forall r :: r in q ==> r in s.ioq
    ensures PassDone(s, DispatchFrom(s, q, ready), q, ready)
    decreases q
  {
    if q == [] {
    } else {
      var s1 := DispatchReq(s, q[0], ready);
      assert q[0] in q && q[0] in s.reqs && s.reqs[q[0]].tid in s.threads;
      QueuedAfter(s, q[0], ready);
      forall r | r in q[1..]
        ensures r in s1.ioq
      {
        assert r in q && r != q[0];
      }
      OneRequest(s, q[0], ready);
      hide DispatchReq, Queued, OneDone, IoqDone, ReqsDone, ThreadsDone, Owners;
      PassSpec(s1, q[1..], ready);
      var s' := DispatchFrom(s, q, ready);
      FirstIoq(s, s1, s', q, ready);
      FirstReqs(s, s1, s', q, ready);
      FirstThreads(s, s1, s', q, ready);
      FirstRunq(s, s1, s', q, ready);
      assert SameElsewhere(s, s1) by {
        assert OneDone(s, s1, q[0], ready);
        OneElsewhere(s, s1, q[0], ready);
      }
    }
  }

  // ----- all select groups

  ghost predicate ServedByAny(pds: seq<PollFd>, passes: seq<Ready>) {
    exists i :: 0 <= i < |passes| && Served(pds, passes[i])
  }

  /** A request of `t` on the I/O queue is served by one of the passes. */
  ghost predicate WokenByAny(s: State, passes: seq<Ready>, t: Tid) {
    exists r :: r in s.ioq && r in s.reqs && s.reqs[r].tid == t && ServedByAny(s.reqs[r].pds, passes)
  }

  /** What all passes together do: a request leaves the queue exactly if some pass serves it, and
      exactly then its thread is woken. */
  ghost predicate AllDone(s: State, s': State, passes: seq<Ready>) {
    && SameElsewhere(s, s') && s'.threads.Keys == s.threads.Keys && s'.reqs.Keys == s.reqs.Keys
    && (forall r :: r in s'.ioq <==> r in s.ioq && !(r in s.reqs && ServedByAny(s.reqs[r].pds, passes)))
    && (forall t :: t in s.threads ==>
          s'.threads[t] == if WokenByAny(s, passes, t) then WokenByIo(s.threads[t]) else s.threads[t])
  }

  lemma ServedFirst(pds: seq<PollFd>, pds': seq<PollFd>, passes: seq<Ready>)
    requires passes != [] && Marked(pds, pds', passes[0])
    ensures ServedByAny(pds, passes) <==> Served(pds, passes[0]) || ServedByAny(pds', passes[1..])
  {
    hide Served, Marked;
    forall i | 0 <= i < |passes|
      ensures Served(pds', passes[i]) <==> Served(pds, passes[i])
    {
      MarkedServed(pds, pds', passes[0], passes[i]);
    }
    if i :| 0 <= i < |passes| && Served(pds, passes[i]) && i > 0 {
      assert passes[1..][i - 1] == passes[i];
    }
    if i :| 0 <= i < |passes[1..]| && Served(pds', passes[1..][i]) {
      assert passes[i + 1] == passes[1..][i];
    }
  }

  /** The queue after the first pass. */
  lemma AfterPass(s: State, s1: State, ready: Ready)
    requires Queued(s) && PassDone(s, s1, s.ioq, ready)
    ensures forall r :: r in s.ioq ==> r in s.reqs && r in s1.reqs && s1.reqs[r].tid == s.reqs[r].tid
    ensures forall r :: r in s.ioq ==> Marked(s.reqs[r].pds, s1.reqs[r].pds, ready)
    ensures forall r :: r in s1.ioq <==> r in s.ioq && !Served(s.reqs[r].pds, ready)
  {
    hide Served, Marked, Owners, ThreadsDone;
  }

  /** A request of the queue is served by some pass if the first serves it or it stays and a
      later one does. */
  lemma ServedLater(s: State, s1: State, passes: seq<Ready>)
    requires passes != [] && Queued(s) && PassDone(s, s1, s.ioq, passes[0])
    ensures forall r :: r in s.ioq ==>
              && r in s.reqs && r in s1.reqs && s1.reqs[r].tid == s.reqs[r].tid
              && (ServedByAny(s.reqs[r].pds, passes) <==> r !in s1.ioq || ServedByAny(s1.reqs[r].pds, passes[1..]))
    ensures forall r :: r in s1.ioq ==> r in s.ioq
    ensures forall r :: r in s.ioq && r !in s1.ioq ==> Served(s.reqs[r].pds, passes[0])
  {
    AfterPass(s, s1, passes[0]);
    hide PassDone, Queued, Served, Marked, ServedByAny;
    forall r | r in s.ioq
      ensures ServedByAny(s.reqs[r].pds, passes) <==> r !in s1.ioq || ServedByAny(s1.reqs[r].pds, passes[1..])
    {
      ServedFirst(s.reqs[r].pds, s1.reqs[r].pds, passes);
    }
  }

  lemma WokenLater(s: State, s1: State, passes: seq<Ready>, t: Tid)
    requires passes != [] && Queued(s) && PassDone(s, s1, s.ioq, passes[0])
    ensures WokenByAny(s, passes, t) <==> Wakes(s, s.ioq, passes[0], t) || WokenByAny(s1, passes[1..], t)
    ensures Wakes(s, s.ioq, passes[0], t) ==> !WokenByAny(s1, passes[1..], t)
  {
    ServedLater(s, s1, passes);
    AfterPass(s, s1, passes[0]);
    hide PassDone, Served, Marked, ServedByAny;
    if r :| r in s.ioq && s.reqs[r].tid == t && ServedByAny(s.reqs[r].pds, passes) {
      if r in s1.ioq {
        assert s1.reqs[r].tid == t && ServedByAny(s1.reqs[r].pds, passes[1..]);
      } else {
        assert IsServed(s, s.ioq, passes[0], r);
      }
    }
    if r :| IsServed(s, s.ioq, passes[0], r) && s.reqs[r].tid == t {
      assert r in s.ioq && r !in s1.ioq && ServedByAny(s.reqs[r].pds, passes);
    }
    if r :| r in s1.ioq && s1.reqs[r].tid == t && ServedByAny(s1.reqs[r].pds, passes[1..]) {
      assert r in s.ioq && s.reqs[r].tid == t && ServedByAny(s.reqs[r].pds, passes);
    }
  }

  lemma {:induction false} QueuedAfterPass(s: State, q: seq<Rid>, ready: Ready)
    requires Queued(s) && NoDup(q) && forall r :: r in q ==> r in s.ioq
    ensures Queued(DispatchFrom(s, q, ready))
    decreases q
  {
    if q == [] {
    } else {
      assert q[0] in q;
      QueuedAfter(s, q[0], ready);
      forall r | r in q[1..]
        ensures r in DispatchReq(s, q[0], ready).ioq
      {
        assert r in q && r != q[0];
      }
      hide DispatchReq, Queued;
      QueuedAfterPass(DispatchReq(s, q[0], ready), q[1..], ready);
    }
  }

  lemma NothingDone(s: State)
    ensures AllDone(s, s, [])
  {
  }

  /** The first pass and the later ones. */
  lemma FirstPass(s: State, s1: State, s': State, passes: seq<Ready>)
    requires passes != [] && Queued(s) && PassDone(s, s1, s.ioq, passes[0]) && AllDone(s1, s', passes[1..])
    ensures AllDone(s, s', passes)
  {
    ServedLater(s, s1, passes);
    hide Served, ServedByAny, WokenByAny, Wakes, WokenByIo, Queued, IoqDone, Owners;
    forall t | t in s.threads
      ensures s'.threads[t] == if WokenByAny(s, passes, t) then WokenByIo(s.threads[t]) else s.threads[t]
    {
      WokenLater(s, s1, passes, t);
    }
  }

  /** `_st_select_dispatch`, over all groups and whatever `select` reports for each. */
  lemma {:induction false} DispatchSpec(s: State, passes: seq<Ready>)
    requires Queued(s)
    ensures AllDone(s, Dispatch(s, passes), passes)
    decreases passes
  {
    assert NoDup(s.ioq);
    hide DispatchFrom, PassDone, AllDone, Queued;
    if passes == [] {
      NothingDone(s);
    } else {
      var s1 := DispatchFrom(s, s.ioq, passes[0]);
      PassSpec(s, s.ioq, passes[0]);
      QueuedAfterPass(s, s.ioq, passes[0]);
      DispatchSpec(s1, passes[1..]);
      FirstPass(s, s1, Dispatch(s, passes), passes);
    }
  }
}
