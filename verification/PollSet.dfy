/** The per-descriptor counters of event.c: how many outstanding poll requests name a
    descriptor for reading, writing or exceptions. */
module PollSet {

  datatype Kind = In | Out | Pri

  /** A `struct pollfd`; `events` is one boolean per bit that event.c tests and one for all
      other bits, `revents` is whether the returned mask is nonzero. */
  datatype PollFd = PollFd(fd: int, pollin: bool, pollout: bool, pollpri: bool, other: bool, revents: bool) {
    predicate NoEvents() {
      !pollin && !pollout && !pollpri && !other
    }

    predicate Wants(k: Kind) {
      match k
      case In => pollin
      case Out => pollout
      case Pri => pollpri
    }
  }

  /** The three counter maps, keyed by kind and descriptor, and the number of select groups. */
  datatype EventSys = EventSys(counts: map<(Kind, int), int>, groups: nat)

  const FD_SETSIZE := 200

  /** `(fd - 1) / FD_SETSIZE`, truncating toward zero as C does. */
  function Group(fd: int): int {
    if fd >= 1 then (fd - 1) / FD_SETSIZE else -((1 - fd) / FD_SETSIZE)
  }

  /** Positive descriptors are grouped by two hundreds. The unregister loop of the dispatcher
      indexes the table of groups for every entry: below its start exactly from -199 down. */
  lemma NegativeGroup(fd: int)
    ensures fd >= 1 ==> 200 * Group(fd) + 1 <= fd <= 200 * Group(fd) + 200
    ensures Group(fd) < 0 <==> fd <= -199
  {
  }

  /** `_st_select_get_cnt`. */
  function Get(ev: EventSys, k: Kind, fd: int): int {
    if (k, fd) in ev.counts then ev.counts[(k, fd)] else 0
  }

  /** `_ST_SELECT_ADD_CNT`. */
  function Add(ev: EventSys, k: Kind, fd: int): EventSys {
    ev.(counts := ev.counts[(k, fd) := Get(ev, k, fd) + 1])
  }

  /** `_st_select_del_cnt`: a descriptor without a counter is left alone. */
  function Cut(ev: EventSys, k: Kind, fd: int): EventSys {
    if (k, fd) in ev.counts then ev.(counts := ev.counts[(k, fd) := ev.counts[(k, fd)] - 1]) else ev
  }

  function AddIf(ev: EventSys, k: Kind, pd: PollFd): EventSys {
    if pd.Wants(k) then Add(ev, k, pd.fd) else ev
  }

  function CutIf(ev: EventSys, k: Kind, pd: PollFd): EventSys {
    if pd.Wants(k) then Cut(ev, k, pd.fd) else ev
  }

  function CutAll(ev: EventSys, pd: PollFd): EventSys {
    CutIf(CutIf(CutIf(ev, In, pd), Out, pd), Pri, pd)
  }

  /** One turn of the loop of `_st_select_pollset_add`. */
  function AddPd(ev: EventSys, pd: PollFd): EventSys {
    if pd.fd <= 0 || pd.NoEvents() then ev
    else
      var grown := if Group(pd.fd) < ev.groups then ev else ev.(groups := Group(pd.fd) + 1);
      AddIf(AddIf(AddIf(grown, In, pd), Out, pd), Pri, pd)
  }

  /** One turn of the loop of `_st_select_pollset_del`. */
  function DelPd(ev: EventSys, pd: PollFd): EventSys {
    if pd.fd <= 0 || pd.NoEvents() || Group(pd.fd) >= ev.groups then ev else CutAll(ev, pd)
  }

  /** One turn of the unregister loop in `_st_select_dispatch_once`, which tests only the group. */
  function DispatchPd(ev: EventSys, pd: PollFd): EventSys {
    if Group(pd.fd) >= ev.groups then ev else CutAll(ev, pd)
  }

  function Register(ev: EventSys, pds: seq<PollFd>): EventSys {
    if pds == [] then ev else AddPd(Register(ev, pds[..|pds| - 1]), pds[|pds| - 1])
  }

  function Unregister(ev: EventSys, pds: seq<PollFd>): EventSys {
    if pds == [] then ev else DelPd(Unregister(ev, pds[..|pds| - 1]), pds[|pds| - 1])
  }

  function UnregisterDispatched(ev: EventSys, pds: seq<PollFd>): EventSys {
    if pds == [] then ev else DispatchPd(UnregisterDispatched(ev, pds[..|pds| - 1]), pds[|pds| - 1])
  }

  /** `_st_select_fd_close`: whether it refuses with EBUSY. */
  predicate CloseBusy(ev: EventSys, fd: int) {
    Group(fd) < ev.groups && (Get(ev, In, fd) > 0 || Get(ev, Out, fd) > 0 || Get(ev, Pri, fd) > 0)
  }

  // ----- what the counters count

  /** Whether an entry names `fd` for `k`. Descriptors that are not positive are never counted. */
  function One(pd: PollFd, k: Kind, fd: int): nat {
    if pd.fd == fd && fd > 0 && pd.Wants(k) then 1 else 0
  }

  function Matches(pds: seq<PollFd>, k: Kind, fd: int): nat {
    if pds == [] then 0 else Matches(pds[..|pds| - 1], k, fd) + One(pds[|pds| - 1], k, fd)
  }

  /** Only positive descriptors ever get a counter. */
  ghost predicate PositiveOnly(ev: EventSys) {
    forall k, fd :: (k, fd) in ev.counts ==> fd > 0
  }

  /** Every entry that was registered lies in a known group. */
  ghost predicate Grouped(ev: EventSys, pds: seq<PollFd>) {
    forall pd :: pd in pds && pd.fd > 0 && !pd.NoEvents() ==> Group(pd.fd) < ev.groups
  }

  lemma AddPdCounts(ev: EventSys, pd: PollFd, k: Kind, fd: int)
    ensures Get(AddPd(ev, pd), k, fd) == Get(ev, k, fd) + One(pd, k, fd)
    ensures AddPd(ev, pd).groups >= ev.groups
    ensures AddPd(ev, pd).groups != ev.groups ==> pd.fd > 0 && !pd.NoEvents() && AddPd(ev, pd).groups == Group(pd.fd) + 1
    ensures PositiveOnly(ev) ==> PositiveOnly(AddPd(ev, pd))
    ensures pd.fd > 0 && !pd.NoEvents() ==> Group(pd.fd) < AddPd(ev, pd).groups
  {
  }

  lemma CutAllCounts(ev: EventSys, pd: PollFd, k: Kind, fd: int)
    requires PositiveOnly(ev) && (Get(ev, k, fd) >= 1 || One(pd, k, fd) == 0)
    ensures Get(CutAll(ev, pd), k, fd) == Get(ev, k, fd) - One(pd, k, fd)
    ensures PositiveOnly(CutAll(ev, pd)) && CutAll(ev, pd).groups == ev.groups
  {
  }

  /** `_st_select_pollset_add` counts every entry of the request once. */
  lemma {:induction false} RegisterCounts(ev: EventSys, pds: seq<PollFd>, k: Kind, fd: int)
    ensures Get(Register(ev, pds), k, fd) == Get(ev, k, fd) + Matches(pds, k, fd)
    ensures Register(ev, pds).groups >= ev.groups && Grouped(Register(ev, pds), pds)
    ensures Register(ev, pds).groups == ev.groups ||
            exists pd :: pd in pds && pd.fd > 0 && !pd.NoEvents() && Register(ev, pds).groups == Group(pd.fd) + 1
    ensures PositiveOnly(ev) ==> PositiveOnly(Register(ev, pds))
  {
    if pds == [] {
    } else {
      var rest := pds[..|pds| - 1];
      RegisterCounts(ev, rest, k, fd);
      AddPdCounts(Register(ev, rest), pds[|pds| - 1], k, fd);
      assert pds[|pds| - 1] in pds && forall pd :: pd in rest ==> pd in pds;
    }
  }

  /** Both ways of taking a registered request off the counters subtract exactly what it added. */
  lemma {:induction false} UnregisterCounts(ev: EventSys, pds: seq<PollFd>, k: Kind, fd: int)
    requires PositiveOnly(ev) && Grouped(ev, pds) && Get(ev, k, fd) >= Matches(pds, k, fd)
    ensures Get(Unregister(ev, pds), k, fd) == Get(ev, k, fd) - Matches(pds, k, fd)
    ensures Get(UnregisterDispatched(ev, pds), k, fd) == Get(ev, k, fd) - Matches(pds, k, fd)
    ensures PositiveOnly(Unregister(ev, pds)) && Unregister(ev, pds).groups == ev.groups
    ensures PositiveOnly(UnregisterDispatched(ev, pds)) && UnregisterDispatched(ev, pds).groups == ev.groups
  {
    if pds == [] {
    } else {
      var rest, pd := pds[..|pds| - 1], pds[|pds| - 1];
      UnregisterCounts(ev, rest, k, fd);
      CutAllCounts(Unregister(ev, rest), pd, k, fd);
      CutAllCounts(UnregisterDispatched(ev, rest), pd, k, fd);
      assert pd in pds;
    }
  }
}
