/** Runs of the scheduler that end where one might not expect it. Each is a concrete input for
    an exact condition stated elsewhere. */
module SchedulerRuns {
  import opened Lists
  import opened Threads
  import opened PollSet
  import opened Scheduler
  import opened SchedulerInv

  const NEW_THREAD := Thr(Runnable, false, false, false, 0, NoCall, [])
  const RUNNING := NEW_THREAD.(state := Running)
  const TURN := IdleTurn([], 0, [])
  const PD := PollFd(5, true, false, false, false, false)
  const READY := Ready({5}, {}, {})

  /** One step of a run. */
  ghost predicate Goes(s: State, step: Step, s': State) {
    Enabled(s, step) && Benign(s, step) && s' == Apply(s, step)
  }

  // ----- the start: threads are created and the first one runs

  /** The initial state, with one mutex and one condition variable. */
  ghost function Start(): State {
    State(map[], Native, [], {}, map[0 := Mutex(None, [])], map[0 := []], map[], [], EventSys(map[], 0), [], 0, [])
  }

  lemma StartIsInit()
    ensures Start() == Init({0}, {0})
  {
  }

  ghost function OneCreated(): State {
    Start().(threads := map[1 := NEW_THREAD], runq := [1])
  }

  ghost function OneRuns(): State {
    Start().(threads := map[1 := RUNNING], current := Run(1))
  }

  lemma CreatesOne()
    ensures Goes(Start(), Create(1), OneCreated())
  {
  }

  lemma RunsOne()
    ensures Goes(OneCreated(), TURN, OneRuns())
  {
    assert OneCreated().threads[1 := RUNNING] == OneRuns().threads;
  }

  ghost function TwoCreated(): State {
    Start().(threads := map[1 := NEW_THREAD, 2 := NEW_THREAD], runq := [1, 2])
  }

  /** Thread 1 runs and thread 2 is next. */
  ghost function FirstOfTwo(): State {
    Start().(threads := map[1 := RUNNING, 2 := NEW_THREAD], runq := [2], current := Run(1))
  }

  lemma CreatesTwo()
    ensures Goes(OneCreated(), Create(2), TwoCreated())
  {
    assert OneCreated().threads[2 := NEW_THREAD] == TwoCreated().threads;
  }

  lemma RunsFirst()
    ensures Goes(TwoCreated(), TURN, FirstOfTwo())
  {
    assert [1, 2][1..] == [2];
    assert TwoCreated().threads[1 := RUNNING] == FirstOfTwo().threads;
  }

  // ----- an owner gets EINTR

  /** Thread 1 holds mutex 0, with or without a pending interrupt. */
  ghost function Owning(flag: bool, log: seq<Event>): State {
    OneRuns().(threads := map[1 := RUNNING.(interrupt := flag)], mutexes := map[0 := Mutex(Some(1), [])], log := log)
  }

  const LOCKED := Event(1, LockOp(0), Ok(0))
  const REFUSED := Event(1, LockOp(0), Err(EINTR))

  lemma LocksTwice()
    ensures Goes(OneRuns(), Lock(0), Owning(false, [LOCKED]))
    ensures Goes(Owning(false, [LOCKED]), Interrupt(1), Owning(true, [LOCKED]))
    ensures Goes(Owning(true, [LOCKED]), Lock(0), Owning(false, [LOCKED, REFUSED]))
  {
    assert OneRuns().mutexes[0 := Mutex(Some(1), [])] == map[0 := Mutex(Some(1), [])];
  }

  /** Thread 1 takes mutex 0, interrupts itself and locks again: it gets EINTR as the owner. */
  lemma OwnerGetsEintr() returns (states: seq<State>, steps: seq<Step>)
    ensures IsRun(states, steps) && states[0] == Init({0}, {0})
    ensures var s := states[|steps|];
            0 in s.mutexes && s.mutexes[0].owner == Some(1) && s.log == [LOCKED, REFUSED]
  {
    hide Apply, Enabled, Benign, Init;
    StartIsInit();
    CreatesOne();
    RunsOne();
    LocksTwice();
    states := [Start(), OneCreated(), OneRuns(), Owning(false, [LOCKED]), Owning(true, [LOCKED]), Owning(false, [LOCKED, REFUSED])];
    steps := [Create(1), TURN, Lock(0), Interrupt(1), Lock(0)];
  }

  // ----- a signal is consumed by a wait that reports EINTR

  const WAITER := Thr(CondWait, false, false, false, 0, Waiting(0), [])
  const SIGNALLED := WAITER.(state := Runnable, causes := [Signal])
  const NAPPER := Thr(Suspended, false, false, false, 0, Napping, [])

  /** Thread 1 is inside a wait on condition variable 0, as given, and thread 2 runs. */
  ghost function InWait(first: Thr, runq: seq<Tid>): State {
    Start().(threads := map[1 := first, 2 := RUNNING], conds := map[0 := [1]], runq := runq, current := Run(2))
  }

  lemma Waits()
    ensures Goes(FirstOfTwo(), Wait(0, None), InWait(WAITER, []))
  {
    var s := FirstOfTwo();
    assert s.conds[0] + [1] == [1] && s.conds[0 := [1]] == map[0 := [1]];
    assert s.threads[1 := WAITER][2 := RUNNING] == InWait(WAITER, []).threads;
    assert [2][1..] == [];
  }

  lemma Signals()
    ensures Goes(InWait(WAITER, []), Notify(0, false), InWait(SIGNALLED, [1]))
  {
    assert [] + [Signal] == [Signal];
    assert InWait(WAITER, []).threads[1 := SIGNALLED] == InWait(SIGNALLED, [1]).threads;
  }

  lemma Interrupts()
    ensures Goes(InWait(SIGNALLED, [1]), Interrupt(1), InWait(SIGNALLED.(interrupt := true), [1]))
  {
    var th := SIGNALLED.(interrupt := true);
    assert InWait(SIGNALLED, [1]).threads[1 := th] == InWait(th, [1]).threads;
  }

  /** Thread 2 sleeps and thread 1 has resumed. */
  ghost function Resumed(): State {
    InWait(SIGNALLED, []).(
      threads := map[1 := SIGNALLED.(state := Running, interrupt := true), 2 := NAPPER], current := Run(1))
  }

  lemma SecondSleeps()
    ensures Goes(InWait(SIGNALLED.(interrupt := true), [1]), Sleep(None), Resumed())
  {
    var w := InWait(SIGNALLED.(interrupt := true), [1]);
    assert w.threads[2 := NAPPER][1 := SIGNALLED.(state := Running, interrupt := true)] == Resumed().threads;
    assert [1][1..] == [];
  }

  lemma ReportsEintr() returns (s: State)
    ensures Goes(Resumed(), Return, s) && 1 in s.threads && s.threads[1].causes == [Signal]
    ensures s.conds == map[0 := []] && s.log == [Event(1, WaitOp(0), Err(EINTR))]
  {
    s := Apply(Resumed(), Return);
    assert Remove([1], 1) == [];
    assert Resumed().conds[0 := []] == map[0 := []];
  }

  /** Thread 1 waits, thread 2 signals and then interrupts it: the wait that the signal ended
      reports EINTR. */
  lemma SignalConsumed() returns (states: seq<State>, steps: seq<Step>)
    ensures IsRun(states, steps) && states[0] == Init({0}, {0})
    ensures var s := states[|steps|];
            && 1 in s.threads && s.threads[1].causes == [Signal]
            && s.conds == map[0 := []] && s.log == [Event(1, WaitOp(0), Err(EINTR))]
  {
    hide Apply, Enabled, Benign, Init, Start, InWait, Resumed;
    StartIsInit();
    CreatesOne();
    CreatesTwo();
    RunsFirst();
    Waits();
    Signals();
    Interrupts();
    SecondSleeps();
    var s8 := ReportsEintr();
    states := [Start(), OneCreated(), TwoCreated(), FirstOfTwo(), InWait(WAITER, []), InWait(SIGNALLED, [1]),
               InWait(SIGNALLED.(interrupt := true), [1]), Resumed(), s8];
    steps := [Create(1), Create(2), TURN, Wait(0, None), Notify(0, false), Interrupt(1), Sleep(None), Return];
  }

  // ----- a sleep is interrupted and reports success

  const WOKEN := NAPPER.(state := Runnable, interrupt := true, causes := [Interrupted])

  /** Thread 1 is inside a sleep, as given, and thread 2 runs. */
  ghost function Asleep(first: Thr, runq: seq<Tid>): State {
    Start().(threads := map[1 := first, 2 := RUNNING], runq := runq, current := Run(2))
  }

  ghost function Awake(): State {
    Start().(threads := map[1 := WOKEN.(state := Running), 2 := NAPPER], current := Run(1))
  }

  lemma FirstSleeps()
    ensures Goes(FirstOfTwo(), Sleep(None), Asleep(NAPPER, []))
  {
    assert FirstOfTwo().threads[1 := NAPPER][2 := RUNNING] == Asleep(NAPPER, []).threads;
    assert [2][1..] == [];
  }

  lemma WakesFirst()
    ensures Goes(Asleep(NAPPER, []), Interrupt(1), Asleep(WOKEN, [1]))
  {
    assert [] + [Interrupted] == [Interrupted];
    assert Asleep(NAPPER, []).threads[1 := WOKEN] == Asleep(WOKEN, [1]).threads;
  }

  lemma SwitchesBack()
    ensures Goes(Asleep(WOKEN, [1]), Sleep(None), Awake())
  {
    assert Asleep(WOKEN, [1]).threads[2 := NAPPER][1 := WOKEN.(state := Running)] == Awake().threads;
    assert [1][1..] == [];
  }

  lemma SleepReturnsZero() returns (s: State)
    ensures Goes(Awake(), Return, s) && 1 in s.threads && s.threads[1].interrupt && s.log == [Event(1, SleepOp, Ok(0))]
  {
    s := Apply(Awake(), Return);
  }

  /** Thread 1 sleeps for ever, thread 2 interrupts it: the sleep returns 0 and the flag stays. */
  lemma SleepHidesInterrupt() returns (states: seq<State>, steps: seq<Step>)
    ensures IsRun(states, steps) && states[0] == Init({0}, {0})
    ensures var s := states[|steps|]; 1 in s.threads && s.threads[1].interrupt && s.log == [Event(1, SleepOp, Ok(0))]
  {
    hide Apply, Enabled, Benign, Init, Start, Asleep, Awake;
    StartIsInit();
    CreatesOne();
    CreatesTwo();
    RunsFirst();
    FirstSleeps();
    WakesFirst();
    SwitchesBack();
    var s7 := SleepReturnsZero();
    states := [Start(), OneCreated(), TwoCreated(), FirstOfTwo(), Asleep(NAPPER, []), Asleep(WOKEN, [1]), Awake(), s7];
    steps := [Create(1), Create(2), TURN, Sleep(None), Interrupt(1), Sleep(None), Return];
  }

  // ----- a poll without timeout returns 0

  const POLLER := Thr(IoWait, true, false, false, 1, Polling(0), [])
  const EXPIRED := POLLER.(state := Runnable, onSleepq := false, causes := [Timer])

  ghost function Polls(): State {
    Start().(
      threads := map[1 := POLLER], sleepq := {1}, current := Idle, ioq := [0],
      reqs := map[0 := Request(1, [PD], true)], ev := Register(EventSys(map[], 0), [PD]))
  }

  ghost function GivesUp(): State {
    Polls().(threads := map[1 := EXPIRED.(state := Running)], sleepq := {}, current := Run(1), lastClock := 1)
  }

  lemma StartsPoll()
    ensures Goes(OneRuns(), Poll(0, [PD], None), Polls())
  {
    hide Register;
    assert OneRuns().threads[1 := POLLER] == Polls().threads;
  }

  lemma ClockWakes()
    ensures ExpireAll(Polls().(lastClock := 1), [1]) ==
            Polls().(threads := map[1 := EXPIRED], sleepq := {}, runq := [1], lastClock := 1)
  {
    hide Register;
    var s := Polls().(lastClock := 1);
    assert [1][1..] == [] && [] + [Timer] == [Timer];
    assert s.threads[1 := EXPIRED] == map[1 := EXPIRED] && {1} - {1} == {};
    assert ExpireAll(s, [1]) == ExpireAll(Requeue(s, 1, Timer), []);
  }

  lemma TickPasses()
    ensures Goes(Polls(), IdleTurn([], 1, [1]), GivesUp())
  {
    ClockWakes();
    hide Register, ExpireAll;
    assert [1][1..] == [];
    assert (map[1 := EXPIRED])[1 := EXPIRED.(state := Running)] == GivesUp().threads;
  }

  lemma PollReturnsZero() returns (s: State)
    ensures Goes(GivesUp(), Return, s) && s.log == [Event(1, PollOp(0), Ok(0))]
  {
    hide Register, Unregister;
    s := Apply(GivesUp(), Return);
  }

  /** Thread 1 polls without a timeout, nothing happens, and the call returns 0 after one
      microsecond. */
  lemma PollGivesUp() returns (states: seq<State>, steps: seq<Step>)
    ensures IsRun(states, steps) && states[0] == Init({0}, {0})
    ensures steps == [Create(1), TURN, Poll(0, [PD], None), IdleTurn([], 1, [1]), Return]
    ensures states[|steps|].log == [Event(1, PollOp(0), Ok(0))]
  {
    hide Apply, Enabled, Benign, Init, Start, Polls, GivesUp;
    StartIsInit();
    CreatesOne();
    RunsOne();
    StartsPoll();
    TickPasses();
    var s5 := PollReturnsZero();
    states := [Start(), OneCreated(), OneRuns(), Polls(), GivesUp(), s5];
    steps := [Create(1), TURN, Poll(0, [PD], None), IdleTurn([], 1, [1]), Return];
  }

  // ----- a runnable thread is queued again

  /** The step relation without the condition on the native fiber. */
  ghost predicate AnyRun(states: seq<State>, steps: seq<Step>) {
    && |states| == |steps| + 1
    && forall i :: 0 <= i < |steps| ==> Enabled(states[i], steps[i]) && states[i + 1] == Apply(states[i], steps[i])
  }

  const STOPPED := POLLER.(state := Runnable, onSleepq := false, interrupt := true, causes := [Interrupted])

  ghost function FirstPolls(): State {
    Polls().(threads := map[1 := POLLER, 2 := RUNNING], current := Run(2))
  }

  ghost function FirstInterrupted(): State {
    FirstPolls().(threads := map[1 := STOPPED, 2 := RUNNING], runq := [1], sleepq := {})
  }

  ghost function SecondExited(): State {
    FirstInterrupted().(threads := map[1 := STOPPED, 2 := NEW_THREAD.(state := Zombie)], current := Native)
  }

  lemma PollsFirst()
    ensures Goes(FirstOfTwo(), Poll(0, [PD], None), FirstPolls())
  {
    hide Register;
    assert FirstOfTwo().threads[1 := POLLER][2 := RUNNING] == FirstPolls().threads;
    assert [2][1..] == [];
  }

  lemma InterruptsFirst()
    ensures Goes(FirstPolls(), Interrupt(1), FirstInterrupted())
  {
    hide Register;
    assert [] + [Interrupted] == [Interrupted] && {1} - {1} == {};
    assert FirstPolls().threads[1 := STOPPED] == FirstInterrupted().threads;
  }

  lemma ExitsSecond()
    ensures Goes(FirstInterrupted(), Exit, SecondExited())
  {
    hide Register;
    assert FirstInterrupted().threads[2 := NEW_THREAD.(state := Zombie)] == SecondExited().threads;
  }

  /** The request of thread 1 is selected although thread 1 is runnable. */
  lemma Selects() returns (d: State)
    ensures d == Dispatch(SecondExited(), [READY]) && SecondExited().current == Native
    ensures d.runq == [1, 1] && d.sleepq == {} && 1 in d.threads && d.threads[1].state == Runnable && d.current == Native
  {
    hide UnregisterDispatched, Register, MarkAll;
    var s := SecondExited();
    d := DispatchReq(s, 0, READY);
    assert PD in s.reqs[0].pds && Hit(PD, READY);
    hide DispatchReq;
    assert s.ioq == [0] && [0][1..] == [];
    assert DispatchFrom(s, s.ioq, READY) == DispatchFrom(d, [], READY);
    assert Dispatch(s, [READY]) == Dispatch(d, []) == d;
  }

  lemma DispatchesAgain()
    ensures var s := SecondExited();
            && Enabled(s, IdleTurn([READY], 0, []))
            && var s' := Apply(s, IdleTurn([READY], 0, []));
               s'.current == Run(1) && s'.runq == [1] && 1 in s'.threads && s'.threads[1].state == Running
  {
    hide Dispatch, SecondExited;
    var d := Selects();
    assert [1, 1][1..] == [1];
  }

  /** The condition on the native fiber is needed: it takes over from an exiting thread and
      dispatches while thread 1 is runnable and its descriptor ready, and thread 1 then runs
      while it is still queued. */
  lemma NativeDoubleQueue() returns (states: seq<State>, steps: seq<Step>)
    ensures AnyRun(states, steps) && states[0] == Init({0}, {0})
    ensures var s := states[|steps|]; s.runq == [1] && 1 in s.threads && s.threads[1].state == Running
  {
    hide Apply, Enabled, Benign, Init, Start, FirstPolls, FirstInterrupted, SecondExited;
    StartIsInit();
    CreatesOne();
    CreatesTwo();
    RunsFirst();
    PollsFirst();
    InterruptsFirst();
    ExitsSecond();
    DispatchesAgain();
    var s6, turn := SecondExited(), IdleTurn([READY], 0, []);
    states := [Start(), OneCreated(), TwoCreated(), FirstOfTwo(), FirstPolls(), FirstInterrupted(), s6, Apply(s6, turn)];
    steps := [Create(1), Create(2), TURN, Poll(0, [PD], None), Interrupt(1), Exit, turn];
  }
}
