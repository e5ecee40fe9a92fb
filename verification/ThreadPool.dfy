/** The pool of connection-handling threads of examples/server.c for one listening socket: the
    limits, and the threads between their yield points (accepting and serving). */
module ThreadPool {

  const MAX_WAIT_THREADS_DEFAULT := 8
  const FD_PER_THREAD := 2

  datatype Limits = Limits(minWait: nat, maxWait: nat, maxThreads: nat)

  /** Total values across all processes, with defaults for zeros. */
  ghost function TotalThreads(given: Limits, fdLimit: nat, vps: nat, sockets: nat): nat
    requires vps > 0 && sockets > 0
  {
    if given.maxThreads == 0 then fdLimit * vps / 2 / sockets else given.maxThreads
  }

  ghost function TotalWait(given: Limits, fdLimit: nat, vps: nat, sockets: nat): nat
    requires vps > 0 && sockets > 0
  {
    var w := if given.maxWait == 0 then 8 * vps else given.maxWait;
    var t := TotalThreads(given, fdLimit, vps, sockets);
    if w > t then t else w
  }

  /** `share` is the least number of threads per process that makes up `total`. */
  ghost predicate LeastShare(share: nat, total: nat, vps: nat) {
    total <= share * vps < total + vps
  }

  lemma LeastShareOrder(a: nat, b: nat, s: nat, t: nat, vps: nat)
    requires LeastShare(a, s, vps) && LeastShare(b, t, vps) && s <= t
    ensures a <= b
  {
    assert a > b ==> (a - b - 1) * vps >= 0 && a * vps == b * vps + vps + (a - b - 1) * vps;
  }

  /** The division by the number of processes, rounded up as the code does. */
  method PerProcess(total: nat, vps: nat) returns (share: nat)
    requires vps > 0
    ensures LeastShare(share, total, vps)
  {
    var q, r := total / vps, total % vps;
    assert total == q * vps + r;
    assert (q + 1) * vps == q * vps + vps;
    if r != 0 {
      share := q + 1;
    } else {
      share := q;
    }
  }

  /** `set_thread_throttling`: the limits per process are the least shares of the totals, and
      they are ordered. */
  method SetThreadThrottling(given: Limits, fdLimit: nat, vps: nat, sockets: nat) returns (l: Limits)
    requires vps > 0 && sockets > 0
    ensures LeastShare(l.maxWait, TotalWait(given, fdLimit, vps, sockets), vps)
    ensures LeastShare(l.maxThreads, TotalThreads(given, fdLimit, vps, sockets), vps)
    ensures l.minWait == if given.minWait > l.maxWait then l.maxWait else given.minWait
    ensures l.minWait <= l.maxWait <= l.maxThreads
  {
    var minWait, maxWait, maxThreads := given.minWait, given.maxWait, given.maxThreads;
    if maxWait == 0 {
      maxWait := MAX_WAIT_THREADS_DEFAULT * vps;
    }
    if maxThreads == 0 {
      maxThreads := fdLimit * vps / FD_PER_THREAD / sockets;
    }
    if maxWait > maxThreads {
      maxWait := maxThreads;
    }
    ghost var w, t := maxWait, maxThreads;
    maxWait := PerProcess(maxWait, vps);
    maxThreads := PerProcess(maxThreads, vps);
    LeastShareOrder(maxWait, maxThreads, w, t, vps);
    if minWait > maxWait {
      minWait := maxWait;
    }
    l := Limits(minWait, maxWait, maxThreads);
  }

  // ----- the pool

  type Tid = nat

  /** Where a thread is: created and not yet run, in `st_accept`, or in `handle_session`. */
  datatype Phase = Starting | Accepting | Serving

  /** `complete` records that no creation of a thread has failed, `started` how many threads
      `start_threads` created. */
  datatype Pool = Pool(wait: int, busy: int, threads: map<Tid, Phase>, complete: bool, started: nat)

  ghost function Waiting(p: Pool): set<Tid> {
    set t | t in p.threads && p.threads[t] != Serving
  }

  ghost function Busy(p: Pool): set<Tid> {
    set t | t in p.threads && p.threads[t] == Serving
  }

  /** The head of the loop of `handle_connections`: accept again, or leave the pool. */
  function LoopHead(l: Limits, p: Pool, t: Tid): Pool {
    if p.wait <= l.maxWait then p.(threads := p.threads[t := Accepting])
    else p.(threads := p.threads - {t}, wait := p.wait - 1)
  }

  /** A connection is accepted; a spare thread `n` may be created, which succeeds or not. */
  function Accept(l: Limits, p: Pool, t: Tid, n: Tid, created: bool): Pool {
    var p1 := p.(wait := p.wait - 1, busy := p.busy + 1, threads := p.threads[t := Serving]);
    if p1.wait < l.minWait && p1.wait + p1.busy < l.maxThreads then
      if created then p1.(wait := p1.wait + 1, threads := p1.threads[n := Starting])
      else p1.(complete := false)
    else p1
  }

  /** A session ends. */
  function Finish(l: Limits, p: Pool, t: Tid): Pool {
    LoopHead(l, p.(wait := p.wait + 1, busy := p.busy - 1, threads := p.threads[t := Accepting]), t)
  }

  datatype Step =
    | Begin(t: Tid)
    | AcceptFails(t: Tid)
    | Accepts(t: Tid, n: Tid, created: bool)
    | Finishes(t: Tid)

  ghost predicate Enabled(p: Pool, s: Step) {
    && s.t in p.threads
    && match s
       case Begin(t) => p.threads[t] == Starting
       case AcceptFails(t) => p.threads[t] == Accepting
       case Accepts(t, n, _) => p.threads[t] == Accepting && n !in p.threads
       case Finishes(t) => p.threads[t] == Serving
  }

  ghost function Apply(l: Limits, p: Pool, s: Step): Pool {
    match s
    case Begin(t) => LoopHead(l, p, t)
    case AcceptFails(t) => LoopHead(l, p, t)
    case Accepts(t, n, created) => Accept(l, p, t, n, created)
    case Finishes(t) => Finish(l, p, t)
  }

  /** The counters count the threads in each phase. */
  ghost predicate Counted(p: Pool) {
    p.wait == |Waiting(p)| && p.busy == |Busy(p)|
  }

  /** The bounds. The lower ones need every creation to have succeeded, for which the pool at
      its limit is the only excuse; no thread that was started is ever missed. */
  ghost predicate Bounded(l: Limits, p: Pool) {
    && p.wait <= l.maxWait && p.wait + p.busy <= l.maxThreads
    && (p.complete ==> p.wait >= l.minWait || p.wait + p.busy == l.maxThreads)
    && p.started <= l.maxWait && p.started <= p.wait + p.busy
  }

  ghost predicate Inv(l: Limits, p: Pool) {
    Counted(p) && Bounded(l, p)
  }

  ghost predicate Ordered(l: Limits) {
    l.minWait <= l.maxWait <= l.maxThreads
  }

  // ----- moving threads between phases

  /** `t` goes on, in a phase that counts as waiting. */
  lemma StaysWaiting(p: Pool, p': Pool, t: Tid)
    requires t in Waiting(p) && p'.threads == p.threads[t := Accepting]
    ensures Waiting(p') == Waiting(p) && Busy(p') == Busy(p)
  {
  }

  lemma BecomesBusy(p: Pool, p': Pool, t: Tid)
    requires t in Waiting(p) && p'.threads == p.threads[t := Serving]
    ensures |Waiting(p')| == |Waiting(p)| - 1 && |Busy(p')| == |Busy(p)| + 1
  {
    assert Waiting(p') == Waiting(p) - {t} && Busy(p') == Busy(p) + {t};
  }

  lemma BecomesWaiting(p: Pool, p': Pool, t: Tid)
    requires t in Busy(p) && p'.threads == p.threads[t := Accepting]
    ensures |Waiting(p')| == |Waiting(p)| + 1 && |Busy(p')| == |Busy(p)| - 1
  {
    assert Waiting(p') == Waiting(p) + {t} && Busy(p') == Busy(p) - {t};
  }

  lemma Joins(p: Pool, p': Pool, n: Tid)
    requires n !in p.threads && p'.threads == p.threads[n := Starting]
    ensures |Waiting(p')| == |Waiting(p)| + 1 && Busy(p') == Busy(p)
  {
    assert Waiting(p') == Waiting(p) + {n} && Busy(p') == Busy(p);
  }

  lemma Leaves(p: Pool, p': Pool, t: Tid)
    requires t in Waiting(p) && p'.threads == p.threads - {t}
    ensures |Waiting(p')| == |Waiting(p)| - 1 && Busy(p') == Busy(p)
  {
    assert Waiting(p') == Waiting(p) - {t} && Busy(p') == Busy(p);
  }

  lemma AcceptInv(l: Limits, p: Pool, t: Tid, n: Tid, created: bool)
    requires Ordered(l) && Inv(l, p) && t in Waiting(p) && n !in p.threads
    ensures Inv(l, Accept(l, p, t, n, created))
  {
    var p1 := p.(wait := p.wait - 1, busy := p.busy + 1, threads := p.threads[t := Serving]);
    BecomesBusy(p, p1, t);
    hide Waiting, Busy;
    var p' := Accept(l, p, t, n, created);
    if p'.wait == p.wait {
      Joins(p1, p', n);
    }
  }

  /** A spare thread is created exactly if fewer than the minimum are left waiting and the pool is
      not full, and if the creation succeeds; nothing else changes but the phase of the thread that
      has accepted. */
  lemma AcceptCreates(l: Limits, p: Pool, t: Tid, n: Tid, created: bool)
    requires Inv(l, p) && t in Waiting(p) && n !in p.threads
    ensures var p', spare := Accept(l, p, t, n, created), p.wait <= l.minWait && p.wait + p.busy < l.maxThreads && created;
            && (n in p'.threads <==> spare)
            && p'.threads == (if spare then p.threads[t := Serving][n := Starting] else p.threads[t := Serving])
            && p'.busy == p.busy + 1 && p'.wait == if spare then p.wait else p.wait - 1
  {
  }

  lemma FinishInv(l: Limits, p: Pool, t: Tid)
    requires Ordered(l) && Inv(l, p) && t in Busy(p)
    ensures Inv(l, Finish(l, p, t)) && (t in Finish(l, p, t).threads <==> p.wait < l.maxWait)
  {
    var p1 := p.(wait := p.wait + 1, busy := p.busy - 1, threads := p.threads[t := Accepting]);
    BecomesWaiting(p, p1, t);
    if p1.wait <= l.maxWait {
      StaysWaiting(p1, Finish(l, p, t), t);
    } else {
      Leaves(p1, Finish(l, p, t), t);
    }
  }

  lemma StepInv(l: Limits, p: Pool, s: Step)
    requires Ordered(l) && Inv(l, p) && Enabled(p, s)
    ensures Inv(l, Apply(l, p, s))
  {
    match s {
      case Begin(t) => StaysWaiting(p, Apply(l, p, s), t);
      case AcceptFails(t) => StaysWaiting(p, Apply(l, p, s), t);
      case Accepts(t, n, created) => AcceptInv(l, p, t, n, created);
      case Finishes(t) => FinishInv(l, p, t);
    }
  }

  /** A thread leaves the pool only at the end of a session, and only if enough others wait: the
      test at the head of the loop never fails elsewhere. */
  lemma LeavesOnlyWhenSpare(l: Limits, p: Pool, s: Step)
    requires Ordered(l) && Inv(l, p) && Enabled(p, s)
    ensures s.t !in Apply(l, p, s).threads <==> s.Finishes? && p.wait == l.maxWait
  {
    if s.Finishes? {
      FinishInv(l, p, s.t);
    }
  }

  /** The pool as `start_threads` leaves it: `made[n]` is whether the n-th creation succeeded. */
  function Started(made: seq<bool>): (p: Pool)
    ensures Counted(p) && p.busy == 0 && 0 <= p.wait == p.started <= |made|
    ensures p.complete ==> p.wait == |made|
    ensures forall t :: t in p.threads ==> t < |made| && p.threads[t] == Starting
  {
    if made == [] then Pool(0, 0, map[], true, 0)
    else
      var n := |made| - 1;
      var p := Started(made[..n]);
      if made[n] then
        var p' := p.(wait := p.wait + 1, threads := p.threads[n := Starting], started := p.started + 1);
        Joins(p, p', n);
        p'
      else p.(complete := false)
  }

  /** A run of a pool under limits computed by `set_thread_throttling`: the started threads are
      at most `maxWait`, and then threads take their steps in any order. */
  ghost predicate IsRun(l: Limits, made: seq<bool>, ps: seq<Pool>, steps: seq<Step>) {
    && |made| == l.maxWait && |ps| == |steps| + 1 && ps[0] == Started(made)
    && forall i :: 0 <= i < |steps| ==> Enabled(ps[i], steps[i]) && ps[i + 1] == Apply(l, ps[i], steps[i])
  }

  lemma {:induction false} RunInv(l: Limits, made: seq<bool>, ps: seq<Pool>, steps: seq<Step>, i: nat)
    requires Ordered(l) && IsRun(l, made, ps, steps) && i < |ps|
    ensures Inv(l, ps[i])
  {
    hide Apply, Enabled, Waiting, Busy, Started;
    if i == 0 {
    } else {
      RunInv(l, made, ps, steps, i - 1);
      StepInv(l, ps[i - 1], steps[i - 1]);
    }
  }

  // ----- the code that keeps the counters

  /** The fields of `srv_socket[i]` that throttle its threads, with the threads themselves as a
      history. */
  class ServerSocket {
    const limits: Limits
    var wait: int
    var busy: int
    ghost var threads: map<Tid, Phase>
    ghost var complete: bool
    ghost var started: nat

    ghost function State(): Pool
      reads this
    {
      Pool(wait, busy, threads, complete, started)
    }

    constructor (limits: Limits)
      ensures this.limits == limits && State() == Started([])
    {
      this.limits, wait, busy, threads, complete, started := limits, 0, 0, map[], true, 0;
    }

    /** `start_threads` for this socket; without any thread the process exits. */
    method StartThreads(made: seq<bool>) returns (running: bool)
      requires |made| == limits.maxWait
      modifies this
      ensures State() == Started(made) && (running <==> exists n :: 0 <= n < |made| && made[n])
    {
      wait, busy, threads, complete, started := 0, 0, map[], true, 0;
      for n := 0 to limits.maxWait
        invariant State() == Started(made[..n])
        invariant wait >= 0 && (wait > 0 <==> exists k :: 0 <= k < n && made[k])
      {
        assert made[..n + 1][..n] == made[..n] && made[..n + 1][n] == made[n];
        if made[n] {
          wait, threads, started := wait + 1, threads[n := Starting], started + 1;
        } else {
          complete := false;
        }
      }
      assert made[..|made|] == made;
      return wait != 0;
    }

    /** From the return of `st_accept` to `handle_session`. */
    method Accepted(t: Tid, n: Tid, created: bool)
      requires Ordered(limits) && Inv(limits, State()) && Enabled(State(), Accepts(t, n, created))
      modifies this
      ensures State() == Accept(limits, old(State()), t, n, created) && Inv(limits, State())
    {
      AcceptInv(limits, State(), t, n, created);
      wait := wait - 1;
      busy := busy + 1;
      threads := threads[t := Serving];
      if wait < limits.minWait && wait + busy < limits.maxThreads {
        if created {
          wait := wait + 1;
          threads := threads[n := Starting];
        } else {
          complete := false;
        }
      }
    }

    /** From the end of `handle_session` to the next `st_accept` or the end of the thread. */
    method Finished(t: Tid) returns (stays: bool)
      requires Ordered(limits) && Inv(limits, State()) && Enabled(State(), Finishes(t))
      modifies this
      ensures State() == Finish(limits, old(State()), t) && Inv(limits, State())
      ensures stays <==> t in threads
    {
      FinishInv(limits, State(), t);
      wait := wait + 1;
      busy := busy - 1;
      threads := threads[t := Accepting];
      stays := wait <= limits.maxWait;
      if stays {
        threads := threads[t := Accepting];
      } else {
        wait := wait - 1;
        threads := threads - {t};
      }
    }
  }
}
