/** Thread states and the thread object (common.h:121-147 and common.h:237-251). */
module Threads {

  /** The `_ST_ST_*` constants. */
  datatype RunState =
    | Running | Runnable | IoWait | LockWait | CondWait | Sleeping | Zombie | Suspended

  /** The part of `_st_thread_t` that the timeout heap and the clock check touch.
      Each `_ST_FL_*` bit is a boolean of its own; `id` names the thread in the scheduler. */
  class Thread {
    const id: nat
    var state: RunState
    var idleThread: bool
    var onSleepq: bool
    var timedOut: bool
    var due: nat
    var left: Thread?
    var right: Thread?
    var heapIndex: nat

    /** `st_thread_create`: the object is zeroed, then made runnable. */
    constructor (id: nat)
      ensures this.id == id && state == Runnable && !idleThread && !onSleepq && !timedOut
      ensures left == null && right == null && heapIndex == 0 && due == 0
    {
      this.id, state := id, Runnable;
      idleThread, onSleepq, timedOut := false, false, false;
      due, left, right, heapIndex := 0, null, null, 0;
    }
  }
}
