/**
 What whole runs of the thread machine guarantee: messages are delivered in the order they
 were sent and to exactly one receiver, no signal is lost, whoever waits has asked to, and when
 a trap stops the kernel.
 */
module ThreadRuns {
  import opened Kinds
  import opened Bits
  import opened Threads

  // ---------------------------------------------------------------- what a step leaves alone

  /** Only links differ. */
  ghost predicate Relinked(th: ThreadMap, th': ThreadMap)
  {
    th'.Keys == th.Keys && forall t :: t in th ==> th'[t] == th[t].(next := th'[t].next)
  }

  /** Besides links only the state of thread t differs. */
  ghost predicate NewStatus(th: ThreadMap, th': ThreadMap, t: Tid, status: Status)
  {
    th'.Keys == th.Keys && forall u :: u in th ==> th'[u] == th[u].(next := th'[u].next, status := if u == t then status else th[u].status)
  }

  lemma {:induction false} LinkLastLeaves(th: ThreadMap, l: List, t: Tid)
    requires l.last.Some? ==> l.last.value in th
    ensures Relinked(th, LinkLast(th, l, t))
  {
  }

  /** The thread that scheduling gives a full slice: the first one queued, or the current one if it can go on. */
  predicate Renews(a: State, t: Tid)
    requires a.current in a.th
  {
    a.requested && if a.run.head.Some? then a.run.head == Some(t) else t == a.current && a.th[t].status == Runnable
  }

  lemma {:induction false} TakenLeaves(a: State)
    requires a.run.head.Some? && a.run.head.value in a.th
    ensures Taken(a).th == a.th[a.run.head.value := a.th[a.run.head.value].(slice := TASK_QUANTUM)]
  {
  }

  lemma {:induction false} ScheduleLeaves(a: State)
    requires Closed(a)
    ensures Schedule(a).th.Keys == a.th.Keys
    ensures forall t :: t in a.th ==>
              Schedule(a).th[t] == a.th[t].(next := Schedule(a).th[t].next, slice := if Renews(a, t) then TASK_QUANTUM else a.th[t].slice)
  {
    if a.requested && a.run.head.Some? {
      SwitchLeaves(a);
    }
  }

  lemma {:induction false} SwitchLeaves(a: State)
    requires Closed(a) && a.requested && a.run.head.Some?
    ensures Schedule(a).th.Keys == a.th.Keys
    ensures forall t :: t in a.th ==>
              Schedule(a).th[t] == a.th[t].(next := Schedule(a).th[t].next, slice := if a.run.head == Some(t) then TASK_QUANTUM else a.th[t].slice)
  {
    TakenLeaves(a);
    LinkLastLeaves(Taken(a).th, Taken(a).run, a.current);
  }

  lemma {:induction false} ScheduleLeavesObjects(a: State)
    requires Closed(a)
    ensures var b := Schedule(a); b.eps == a.eps && b.nts == a.nts && b.msgs == a.msgs && b.qs == a.qs
  {
    if a.requested && a.run.head.Some? {
      var b := Taken(a);
      assert b.eps == a.eps && b.nts == a.nts && b.msgs == a.msgs && b.qs == a.qs;
    }
  }

  lemma {:induction false} BlockLeaves(a: State, k: QId, b: State)
    requires a.current in a.th && k in a.qs && (a.qs[k] != [] ==> a.qs[k][|a.qs[k]| - 1] in a.th) && Block(a, k) == Some(b)
    ensures NewStatus(a.th, b.th, a.current, Blocked) && b.eps == a.eps && b.nts == a.nts && b.msgs == a.msgs
    ensures b.qs == a.qs[k := a.qs[k] + [a.current]]
    ensures b.run == a.run && b.current == a.current && b.requested
  {
  }

  lemma {:induction false} WakeLeaves(a: State, t: Tid, b: State)
    requires t in a.th && (a.run.last.Some? ==> a.run.last.value in a.th) && Wake(a, t) == Some(b)
    ensures NewStatus(a.th, b.th, t, Runnable) && b.eps == a.eps && b.nts == a.nts && b.msgs == a.msgs && b.qs == a.qs
    ensures b.run == Pushed(a.run, t) && b.current == a.current && b.requested == a.requested
  {
  }

  // ---------------------------------------------------------------- the protocol of one trap

  /** Register a1 of thread t afterwards: a receiver gets the badge of the capability its sender
      used, a waiter the value signalled, everybody else keeps what was there. */
  function A1After(a: State, ev: Event, t: Tid): (v: nat)
    requires Defined(a) && Enabled(a, ev) && t in a.th
  {
    match ev
    case Send(e, badge) => if a.eps[e] == Receiving && t == a.qs[OfEp(e)][0] then badge else a.th[t].a1
    case Recv(e) => if a.eps[e] == Sending && t == a.current then a.th[a.qs[OfEp(e)][0]].badge else a.th[t].a1
    case Signal(n, val) => if a.qs[OfNt(n)] != [] && t == a.qs[OfNt(n)][0] then val else a.th[t].a1
    case Wait(n) => if a.nts[n].isSet && t == a.current then a.nts[n].bits else a.th[t].a1
    case Other(_, v) => if t == a.current then v else a.th[t].a1
    case _ => a.th[t].a1
  }

  /** The thread that this trap makes runnable: a partner that waited, or the one that is resumed. */
  function Woken(a: State, ev: Event): (t: Option<Tid>)
    requires Defined(a) && Enabled(a, ev)
  {
    match ev
    case Send(e, _) => if a.eps[e] == Receiving then Some(a.qs[OfEp(e)][0]) else None
    case Recv(e) => if a.eps[e] == Sending then Some(a.qs[OfEp(e)][0]) else None
    case Signal(n, _) => if a.qs[OfNt(n)] != [] then Some(a.qs[OfNt(n)][0]) else None
    case Resume(t) => Some(t)
    case _ => None
  }

  /** The caller finds no partner and nothing pending. */
  predicate MustWait(a: State, ev: Event)
    requires Named(a, ev)
  {
    match ev
    case Send(e, _) => a.eps[e] != Receiving
    case Recv(e) => a.eps[e] != Sending
    case Wait(n) => !a.nts[n].isSet
    case _ => false
  }

  function StatusAfter(a: State, ev: Event, t: Tid): (s: Status)
    requires Defined(a) && Enabled(a, ev) && t in a.th
  {
    if Woken(a, ev) == Some(t) then Runnable else if t == a.current && MustWait(a, ev) then Blocked else a.th[t].status
  }

  /** The queues of waiting threads afterwards: a partner leaves at the front, or the caller
      joins at the back. */
  function QueuesAfter(a: State, ev: Event): (qs: Queues)
    requires Defined(a) && Enabled(a, ev)
  {
    match ev
    case Send(e, _) =>
      a.qs[OfEp(e) := if a.eps[e] == Receiving then a.qs[OfEp(e)][1..] else a.qs[OfEp(e)] + [a.current]]
    case Recv(e) =>
      a.qs[OfEp(e) := if a.eps[e] == Sending then a.qs[OfEp(e)][1..] else a.qs[OfEp(e)] + [a.current]]
    case Signal(n, _) =>
      if a.qs[OfNt(n)] == [] then a.qs else a.qs[OfNt(n) := a.qs[OfNt(n)][1..]]
    case Wait(n) =>
      if a.nts[n].isSet then a.qs else a.qs[OfNt(n) := a.qs[OfNt(n)] + [a.current]]
    case _ => a.qs
  }

  /** The side that waits at each endpoint afterwards. */
  function SidesAfter(a: State, ev: Event): (eps: map<nat, Side>)
    requires Defined(a) && Enabled(a, ev)
  {
    match ev
    case Send(e, _) =>
      if a.eps[e] != Receiving then a.eps[e := Sending] else if |a.qs[OfEp(e)]| == 1 then a.eps[e := Free] else a.eps
    case Recv(e) =>
      if a.eps[e] != Sending then a.eps[e := Receiving] else if |a.qs[OfEp(e)]| == 1 then a.eps[e := Free] else a.eps
    case _ => a.eps
  }

  function PendingAfter(a: State, ev: Event): (nts: map<nat, Pending>)
    requires Defined(a) && Enabled(a, ev)
  {
    match ev
    case Signal(n, val) => if a.qs[OfNt(n)] != [] then a.nts else a.nts[n := Pending(Or(a.nts[n].bits, val), true)]
    case Wait(n) => if a.nts[n].isSet then a.nts[n := Pending(0, false)] else a.nts
    case _ => a.nts
  }

  /** IPC buffers afterwards: the receiver's is the sender's, when both have one. */
  function MsgsAfter(a: State, ev: Event): (m: map<nat, seq<nat>>)
    requires Defined(a) && Enabled(a, ev)
  {
    match ev
    case Send(e, _) => if a.eps[e] == Receiving then CopyMsg(a, a.current, a.qs[OfEp(e)][0]) else a.msgs
    case Recv(e) => if a.eps[e] == Sending then CopyMsg(a, a.qs[OfEp(e)][0], a.current) else a.msgs
    case _ => a.msgs
  }

  /** A thread's registers, badge and state after the trap, but for the result of a call. */
  predicate ThreadMeets(a: State, ev: Event, t: Tid, y: Thread)
    requires Defined(a) && Enabled(a, ev) && t in a.th
  {
    && y.a1 == A1After(a, ev, t)
    && y.badge == (if ev.Send? && t == a.current then ev.badge else a.th[t].badge)
    && y.ipc == a.th[t].ipc && y.status == StatusAfter(a, ev, t)
  }

  /** The result of a call is left in the caller's a0; no other thread's a0 changes. */
  function A0After(a: State, ev: Event, t: Tid): (v: nat)
    requires t in a.th
  {
    if !ev.Tick? && t == a.current then ResultOf(ev) else a.th[t].a0
  }

  ghost predicate RegistersMeet(a: State, ev: Event, b: State)
    requires Defined(a) && Enabled(a, ev)
  {
    b.th.Keys == a.th.Keys && forall t :: t in a.th ==> ThreadMeets(a, ev, t, b.th[t]) && b.th[t].a0 == A0After(a, ev, t)
  }

  /** Before the result is written back; slices have not changed either. */
  ghost predicate CallRegisters(a: State, ev: Event, b: State)
    requires Defined(a) && Enabled(a, ev)
  {
    b.th.Keys == a.th.Keys && forall t :: t in a.th ==> ThreadMeets(a, ev, t, b.th[t]) && b.th[t].a0 == a.th[t].a0 && b.th[t].slice == a.th[t].slice
  }

  ghost predicate QueuesMeet(a: State, ev: Event, b: State)
    requires Defined(a) && Enabled(a, ev)
  {
    && b.qs == QueuesAfter(a, ev)
    && b.eps == SidesAfter(a, ev) && b.nts == PendingAfter(a, ev) && b.msgs == MsgsAfter(a, ev)
  }

  /** Scheduling is asked for if it was before, if the caller has to wait and if its slice is used up. */
  predicate Asks(a: State, ev: Event)
    requires a.current in a.th && Named(a, ev)
  {
    a.requested || MustWait(a, ev) || (ev.Tick? && a.current != IDLE && a.th[a.current].slice == 1)
  }

  /** Who is first in the run queue when scheduling takes place. */
  function FirstQueued(a: State, ev: Event): (t: Option<Tid>)
    requires Defined(a) && Enabled(a, ev)
  {
    if a.run.head.Some? then a.run.head else Woken(a, ev)
  }

  /** Nobody is queued and the current thread can go on. */
  predicate GoesOn(a: State, ev: Event)
    requires Defined(a) && Enabled(a, ev)
  {
    FirstQueued(a, ev).None? && StatusAfter(a, ev, a.current) == Runnable
  }

  function CurrentAfter(a: State, ev: Event): (t: Tid)
    requires Defined(a) && Enabled(a, ev)
  {
    if !Asks(a, ev) || GoesOn(a, ev) then a.current else if FirstQueued(a, ev).Some? then FirstQueued(a, ev).value else IDLE
  }

  /** A thread chosen by scheduling has a full slice, even if it is the one that ran; a tick takes one from the
      current thread; nothing else changes a slice. */
  function SliceAfter(a: State, ev: Event, t: Tid): (n: int)
    requires Defined(a) && Enabled(a, ev) && t in a.th
  {
    if Asks(a, ev) && t == CurrentAfter(a, ev) && t != IDLE then TASK_QUANTUM
    else if ev.Tick? && t == a.current && t != IDLE then a.th[t].slice - 1
    else a.th[t].slice
  }

  /** Who runs next and with how much time; a request for scheduling outlasts the trap only if the current thread
      goes on because nobody is queued. */
  ghost predicate TimesMeet(a: State, ev: Event, b: State)
    requires Defined(a) && Enabled(a, ev)
  {
    && b.th.Keys == a.th.Keys && b.current == CurrentAfter(a, ev) && (b.requested <==> Asks(a, ev) && GoesOn(a, ev))
    && forall t :: t in a.th ==> b.th[t].slice == SliceAfter(a, ev, t)
  }

  /** Everything but the run queue and the links. */
  ghost predicate Meets(a: State, ev: Event, b: State)
    requires Defined(a) && Enabled(a, ev)
  {
    RegistersMeet(a, ev, b) && QueuesMeet(a, ev, b)
  }

  ghost predicate CallMeets(a: State, ev: Event, b: State)
    requires Defined(a) && Enabled(a, ev)
  {
    CallRegisters(a, ev, b) && QueuesMeet(a, ev, b)
  }

  /** What handing over a message leaves alone. */
  lemma {:induction false} HandoverLeaves(p: State, from: Tid, to: Tid, waiting: Tid, b: State)
    requires from in p.th && to in p.th && waiting in p.th && (p.run.last.Some? ==> p.run.last.value in p.th)
    requires Handover(p, from, to, waiting) == Some(b)
    ensures b.th.Keys == p.th.Keys && b.qs == p.qs && b.eps == p.eps && b.nts == p.nts && b.msgs == CopyMsg(p, from, to)
    ensures forall t :: t in p.th ==> HandedOver(p, from, to, waiting, t, b.th[t])
  {
    var c := p.(msgs := CopyMsg(p, from, to));
    WakeLeaves(SetThread(c, to, c.th[to].(a1 := c.th[from].badge)), waiting, b);
  }

  predicate HandedOver(p: State, from: Tid, to: Tid, waiting: Tid, t: Tid, y: Thread)
    requires from in p.th && t in p.th
  {
    y == p.th[t].(a1 := if t == to then p.th[from].badge else p.th[t].a1, status := if t == waiting then Runnable else p.th[t].status, next := y.next)
  }

  lemma {:induction false} SendWakesMeets(a: State, e: nat, badge: nat, b: State)
    requires Defined(a) && Enabled(a, Send(e, badge)) && a.eps[e] == Receiving && a.qs[OfEp(e)][0] != a.current && DoSend(a, e, badge) == Some(b)
    ensures CallMeets(a, Send(e, badge), b)
  {
    var s, t := a.current, a.qs[OfEp(e)][0];
    var p := PopEp(SetThread(a, s, a.th[s].(badge := badge)), e);
    HandoverLeaves(p, s, t, t, b);
    SendRegisters(a, e, badge, p, b);
    SendQueues(a, e, badge, p, b);
  }

  lemma {:induction false} SendQueues(a: State, e: nat, badge: nat, p: State, b: State)
    requires Defined(a) && Enabled(a, Send(e, badge)) && a.eps[e] == Receiving && a.qs[OfEp(e)][0] != a.current
    requires p == PopEp(SetThread(a, a.current, a.th[a.current].(badge := badge)), e)
    requires b.qs == p.qs && b.eps == p.eps && b.nts == p.nts && b.msgs == CopyMsg(p, a.current, a.qs[OfEp(e)][0])
    ensures QueuesMeet(a, Send(e, badge), b)
  {
  }

  lemma {:induction false} SendRegisters(a: State, e: nat, badge: nat, p: State, b: State)
    requires Defined(a) && Enabled(a, Send(e, badge)) && a.eps[e] == Receiving && b.th.Keys == a.th.Keys
    requires p.th == a.th[a.current := a.th[a.current].(badge := badge)]
    requires var to := a.qs[OfEp(e)][0]; forall t :: t in p.th ==> HandedOver(p, a.current, to, to, t, b.th[t])
    ensures CallRegisters(a, Send(e, badge), b)
  {
  }

  lemma {:induction false} SendBlocksMeets(a: State, e: nat, badge: nat, b: State)
    requires Defined(a) && Enabled(a, Send(e, badge)) && a.eps[e] != Receiving && DoSend(a, e, badge) == Some(b)
    ensures CallMeets(a, Send(e, badge), b)
  {
    var s := a.current;
    BlockLeaves(SetThread(a, s, a.th[s].(badge := badge)).(eps := a.eps[e := Sending]), OfEp(e), b);
  }

  lemma {:induction false} RecvWakesMeets(a: State, e: nat, b: State)
    requires Defined(a) && Enabled(a, Recv(e)) && a.eps[e] == Sending && a.qs[OfEp(e)][0] != a.current && DoRecv(a, e) == Some(b)
    ensures CallMeets(a, Recv(e), b)
  {
    var t, s := a.current, a.qs[OfEp(e)][0];
    HandoverLeaves(PopEp(a, e), s, t, s, b);
    assert forall u :: u in a.th ==> HandedOver(PopEp(a, e), s, t, s, u, b.th[u]);
  }

  lemma {:induction false} RecvBlocksMeets(a: State, e: nat, b: State)
    requires Defined(a) && Enabled(a, Recv(e)) && a.eps[e] != Sending && DoRecv(a, e) == Some(b)
    ensures CallMeets(a, Recv(e), b)
  {
    BlockLeaves(a.(eps := a.eps[e := Receiving]), OfEp(e), b);
  }

  /** What waking a waiter with a value leaves alone. */
  lemma {:induction false} WakeFirstLeaves(a: State, n: nat, val: nat, b: State)
    requires Closed(a) && n in a.nts && a.qs[OfNt(n)] != [] && WakeFirst(a, n, val) == Some(b)
    ensures b.th.Keys == a.th.Keys && b.qs == a.qs[OfNt(n) := a.qs[OfNt(n)][1..]]
    ensures b.eps == a.eps && b.nts == a.nts && b.msgs == a.msgs
    ensures forall t :: t in a.th ==> Signalled(a, a.qs[OfNt(n)][0], val, t, b.th[t])
  {
    var q := a.qs[OfNt(n)];
    var c := a.(qs := a.qs[OfNt(n) := q[1..]]);
    WakeLeaves(SetThread(c, q[0], c.th[q[0]].(a1 := val)), q[0], b);
  }

  predicate Signalled(a: State, first: Tid, val: nat, t: Tid, y: Thread)
    requires t in a.th
  {
    y == a.th[t].(a1 := if t == first then val else a.th[t].a1, status := if t == first then Runnable else a.th[t].status, next := y.next)
  }

  lemma {:induction false} SignalMeets(a: State, n: nat, val: nat, b: State)
    requires Defined(a) && Enabled(a, Signal(n, val)) && DoSignal(a, n, val) == Some(b)
    ensures CallMeets(a, Signal(n, val), b)
  {
    if a.qs[OfNt(n)] != [] {
      WakeFirstLeaves(a, n, val, b);
      SignalRegisters(a, n, val, b);
    }
  }

  lemma {:induction false} SignalRegisters(a: State, n: nat, val: nat, b: State)
    requires Defined(a) && Enabled(a, Signal(n, val)) && a.qs[OfNt(n)] != [] && b.th.Keys == a.th.Keys
    requires forall t :: t in a.th ==> Signalled(a, a.qs[OfNt(n)][0], val, t, b.th[t])
    ensures CallRegisters(a, Signal(n, val), b)
  {
  }

  lemma {:induction false} WaitMeets(a: State, n: nat, b: State)
    requires Defined(a) && Enabled(a, Wait(n)) && DoWait(a, n) == Some(b)
    ensures CallMeets(a, Wait(n), b)
  {
    if !a.nts[n].isSet {
      BlockLeaves(a, OfNt(n), b);
    }
  }

  lemma {:induction false} CallMeetsHolds(a: State, ev: Event, b: State)
    requires AtUser(a) && Enabled(a, ev) && !ev.Tick? && Call(a, ev) == Some(b)
    ensures CallMeets(a, ev, b)
  {
    match ev
    case Send(e, badge) =>
      if a.eps[e] == Receiving {
        WaitsIs(a.qs, OfEp(e), 0);
        SendWakesMeets(a, e, badge, b);
      } else {
        SendBlocksMeets(a, e, badge, b);
      }
    case Recv(e) =>
      if a.eps[e] == Sending {
        WaitsIs(a.qs, OfEp(e), 0);
        RecvWakesMeets(a, e, b);
      } else {
        RecvBlocksMeets(a, e, b);
      }
    case Signal(n, val) => SignalMeets(a, n, val, b);
    case Wait(n) => WaitMeets(a, n, b);
    case Resume(t) => ResumeMeets(a, t);
    case Other(_, _) => OtherMeets(a, ev, b);
  }

  lemma {:induction false} OtherMeets(a: State, ev: Event, b: State)
    requires Defined(a) && Enabled(a, ev) && ev.Other? && Call(a, ev) == Some(b)
    ensures CallMeets(a, ev, b)
  {
  }

  lemma {:induction false} ResumeMeets(a: State, t: Tid)
    requires Defined(a) && Enabled(a, Resume(t))
    ensures CallMeets(a, Resume(t), MakeRunnable(a, t))
  {
    LinkLastLeaves(a.th[t := a.th[t].(status := Runnable)], a.run, t);
  }

  /** Scheduling does not touch what the protocol fixes. */
  lemma {:induction false} MeetsStays(a: State, ev: Event, b: State, c: State)
    requires Defined(a) && Enabled(a, ev) && Meets(a, ev, b)
    requires c.th.Keys == b.th.Keys
    requires forall t :: t in b.th ==> c.th[t] == b.th[t].(next := c.th[t].next, slice := c.th[t].slice)
    requires c.qs == b.qs && c.eps == b.eps && c.nts == b.nts && c.msgs == b.msgs
    ensures Meets(a, ev, c)
  {
  }

  lemma {:induction false} TickRegisters(a: State, b: State)
    requires Defined(a) && DoTick(a) == Some(b)
    ensures RegistersMeet(a, Tick, b)
  {
  }

  lemma {:induction false} TickQueues(a: State, b: State)
    requires Defined(a) && DoTick(a) == Some(b)
    ensures QueuesMeet(a, Tick, b)
  {
  }

  lemma {:induction false} WriteBackMeets(a: State, ev: Event, b: State)
    requires Defined(a) && Enabled(a, ev) && !ev.Tick? && CallMeets(a, ev, b)
    ensures Meets(a, ev, SetThread(b, a.current, b.th[a.current].(a0 := ResultOf(ev))))
  {
  }

  lemma {:induction false} HandleMeets(a: State, ev: Event, b: State)
    requires AtUser(a) && Enabled(a, ev) && Handle(a, ev) == Some(b)
    ensures Meets(a, ev, b)
  {
    if ev.Tick? {
      TickMeets(a, b);
    } else {
      var c := CallIs(a, ev, b);
      CallMeetsHolds(a, ev, c);
      WriteBackMeets(a, ev, c);
    }
  }

  lemma {:induction false} TickMeets(a: State, b: State)
    requires Defined(a) && DoTick(a) == Some(b)
    ensures Meets(a, Tick, b)
  {
    TickRegisters(a, b);
    TickQueues(a, b);
  }

  lemma {:induction false} CallIs(a: State, ev: Event, b: State) returns (c: State)
    requires AtUser(a) && Enabled(a, ev) && !ev.Tick? && Handle(a, ev) == Some(b)
    ensures Call(a, ev) == Some(c) && a.current in c.th && b == SetThread(c, a.current, c.th[a.current].(a0 := ResultOf(ev)))
  {
    c := Call(a, ev).value;
    CallKeeps(a, ev, c);
  }

  lemma {:induction false} ScheduleMeets(a: State, ev: Event, c: State)
    requires Defined(a) && Enabled(a, ev) && Meets(a, ev, c) && Closed(c)
    ensures Meets(a, ev, Schedule(c))
  {
    ScheduleLeaves(c);
    ScheduleLeavesObjects(c);
    MeetsStays(a, ev, c, Schedule(c));
  }

  /** A trap is what is handled and then scheduled. */
  lemma {:induction false} TrapIs(a: State, ev: Event, b: State) returns (c: State)
    requires AtUser(a) && Enabled(a, ev) && Trap(a, ev) == Some(b)
    ensures Handle(a, ev) == Some(c) && Mid(c) && b == Schedule(c)
  {
    c := Handle(a, ev).value;
    HandleKeeps(a, ev);
  }

  /** The protocol of a whole trap, from user mode to user mode. */
  lemma {:induction false} TrapMeets(a: State, ev: Event, b: State)
    requires AtUser(a) && Enabled(a, ev) && Trap(a, ev) == Some(b)
    ensures Meets(a, ev, b)
  {
    var c := TrapIs(a, ev, b);
    HandleMeets(a, ev, c);
    ScheduleMeets(a, ev, c);
  }

  // ---------------------------------------------------------------- who runs next, and for how long

  /** What a call leaves for the scheduler. */
  ghost predicate LeavesFor(a: State, ev: Event, c: State)
    requires Defined(a) && Enabled(a, ev)
  {
    && c.current == a.current && c.run.head == FirstQueued(a, ev) && (c.requested <==> Asks(a, ev))
  }

  lemma {:induction false} HandoverLeavesFor(p: State, from: Tid, to: Tid, waiting: Tid, b: State)
    requires from in p.th && to in p.th && waiting in p.th && (p.run.last.Some? ==> p.run.last.value in p.th)
    requires Handover(p, from, to, waiting) == Some(b)
    ensures b.run == Pushed(p.run, waiting) && b.current == p.current && b.requested == p.requested
  {
  }

  lemma {:induction false} SendLeavesFor(a: State, e: nat, badge: nat, b: State)
    requires AtUser(a) && Enabled(a, Send(e, badge)) && DoSend(a, e, badge) == Some(b)
    ensures LeavesFor(a, Send(e, badge), b)
  {
    var p := SetThread(a, a.current, a.th[a.current].(badge := badge));
    if a.eps[e] == Receiving {
      HandoverLeavesFor(PopEp(p, e), a.current, a.qs[OfEp(e)][0], a.qs[OfEp(e)][0], b);
    } else {
      BlockLeaves(p.(eps := a.eps[e := Sending]), OfEp(e), b);
    }
  }

  lemma {:induction false} RecvLeavesFor(a: State, e: nat, b: State)
    requires AtUser(a) && Enabled(a, Recv(e)) && DoRecv(a, e) == Some(b)
    ensures LeavesFor(a, Recv(e), b)
  {
    if a.eps[e] == Sending {
      HandoverLeavesFor(PopEp(a, e), a.qs[OfEp(e)][0], a.current, a.qs[OfEp(e)][0], b);
    } else {
      BlockLeaves(a.(eps := a.eps[e := Receiving]), OfEp(e), b);
    }
  }

  lemma {:induction false} CallLeavesFor(a: State, ev: Event, b: State)
    requires AtUser(a) && Enabled(a, ev) && !ev.Tick? && Call(a, ev) == Some(b)
    ensures LeavesFor(a, ev, b)
  {
    match ev
    case Send(e, badge) => SendLeavesFor(a, e, badge, b);
    case Recv(e) => RecvLeavesFor(a, e, b);
    case _ =>
  }

  lemma {:induction false} HandleLeavesFor(a: State, ev: Event, c: State)
    requires AtUser(a) && Enabled(a, ev) && Handle(a, ev) == Some(c)
    ensures LeavesFor(a, ev, c)
  {
    if !ev.Tick? {
      CallLeavesFor(a, ev, Call(a, ev).value);
    }
  }

  lemma {:induction false} HandleSlices(a: State, ev: Event, c: State)
    requires AtUser(a) && Enabled(a, ev) && Handle(a, ev) == Some(c)
    ensures c.th.Keys == a.th.Keys
    ensures forall t :: t in a.th ==>
              c.th[t].slice == if ev.Tick? && t == a.current && t != IDLE then a.th[t].slice - 1 else a.th[t].slice
  {
    if !ev.Tick? {
      CallMeetsHolds(a, ev, Call(a, ev).value);
    }
  }

  /** Scheduling, from what a call leaves. */
  lemma {:induction false} ScheduleTimes(a: State, ev: Event, c: State)
    requires AtUser(a) && Enabled(a, ev) && Closed(c) && LeavesFor(a, ev, c) && c.th.Keys == a.th.Keys
    requires c.th[a.current].status == StatusAfter(a, ev, a.current)
    ensures Schedule(c).current == CurrentAfter(a, ev) && (Schedule(c).requested <==> Asks(a, ev) && GoesOn(a, ev))
    ensures forall t :: t in a.th ==> (Renews(c, t) <==> Asks(a, ev) && t == CurrentAfter(a, ev) && t != IDLE)
  {
  }

  /** Which thread a trap returns to, and every thread's slice. */
  lemma {:induction false} TrapTimes(a: State, ev: Event, b: State)
    requires AtUser(a) && Enabled(a, ev) && Trap(a, ev) == Some(b)
    ensures TimesMeet(a, ev, b)
  {
    var c := TrapIs(a, ev, b);
    HandledStatus(a, ev, c);
    HandleLeavesFor(a, ev, c);
    HandleSlices(a, ev, c);
    HandledTimes(a, ev, c);
  }

  lemma {:induction false} HandledStatus(a: State, ev: Event, c: State)
    requires AtUser(a) && Enabled(a, ev) && Handle(a, ev) == Some(c)
    ensures a.current in c.th && c.th[a.current].status == StatusAfter(a, ev, a.current)
  {
    HandleMeets(a, ev, c);
    assert ThreadMeets(a, ev, a.current, c.th[a.current]);
  }

  lemma {:induction false} HandledTimes(a: State, ev: Event, c: State)
    requires AtUser(a) && Enabled(a, ev) && Closed(c) && LeavesFor(a, ev, c) && c.th.Keys == a.th.Keys
    requires c.th[a.current].status == StatusAfter(a, ev, a.current)
    requires forall t :: t in a.th ==>
              c.th[t].slice == if ev.Tick? && t == a.current && t != IDLE then a.th[t].slice - 1 else a.th[t].slice
    ensures TimesMeet(a, ev, Schedule(c))
  {
    ScheduleTimes(a, ev, c);
    SlicesMeet(a, ev, c);
    ScheduleLeaves(c);
  }

  lemma {:induction false} SlicesMeet(a: State, ev: Event, c: State)
    requires Defined(a) && Enabled(a, ev) && Closed(c) && c.th.Keys == a.th.Keys
    requires forall t :: t in a.th ==>
              c.th[t].slice == if ev.Tick? && t == a.current && t != IDLE then a.th[t].slice - 1 else a.th[t].slice
    requires forall t :: t in a.th ==> (Renews(c, t) <==> Asks(a, ev) && t == CurrentAfter(a, ev) && t != IDLE)
    ensures forall t :: t in a.th ==> t in Schedule(c).th && Schedule(c).th[t].slice == SliceAfter(a, ev, t)
  {
    ScheduleLeaves(c);
  }

  /** A thread alone goes on when its quantum ends, with a full slice; since scheduling stays requested, every
      further trap gives it a full slice again, until it has to wait or makes another thread runnable. */
  lemma {:induction false} AloneRenewed(a: State, ev: Event, b: State)
    requires AtUser(a) && Enabled(a, ev) && Trap(a, ev) == Some(b) && a.run.head.None? && a.current != IDLE && a.th[a.current].status == Runnable
    requires Woken(a, ev).None? && !MustWait(a, ev) && (a.requested || (ev.Tick? && a.th[a.current].slice == 1))
    ensures b.current == a.current && a.current in b.th && b.th[a.current].slice == TASK_QUANTUM && b.requested
  {
    TrapTimes(a, ev, b);
  }

  // ---------------------------------------------------------------- messages over a run

  /** Badges in the order their sends started, and as read from the receivers' registers. */
  datatype Log = Log(sent: seq<nat>, received: seq<nat>)

  /** The badges of the senders that wait at endpoint e, in order. */
  function Waiting(a: State, e: nat): (w: seq<nat>)
    requires Defined(a) && e in a.eps
  {
    if a.eps[e] == Sending then Badges(a.th, a.qs[OfEp(e)]) else []
  }

  function Badges(th: ThreadMap, q: seq<Tid>): (w: seq<nat>)
    requires forall i :: 0 <= i < |q| ==> q[i] in th
    ensures |w| == |q| && forall i :: 0 <= i < |q| ==> w[i] == th[q[i]].badge
  {
    seq(|q|, i requires 0 <= i < |q| => th[q[i]].badge)
  }

  /** What one trap from a to b adds to the log of endpoint e. */
  function LogStep(a: State, ev: Event, b: State, e: nat, log: Log): (r: Log)
    requires Defined(a) && Enabled(a, ev) && e in a.eps && b.th.Keys == a.th.Keys
  {
    match ev
    case Send(e', badge) =>
      if e' != e then log
      else if a.eps[e] == Receiving then Log(log.sent + [badge], log.received + [b.th[a.qs[OfEp(e)][0]].a1])
      else Log(log.sent + [badge], log.received)
    case Recv(e') =>
      if e' == e && a.eps[e] == Sending then Log(log.sent, log.received + [b.th[a.current].a1]) else log
    case _ => log
  }

  /** Nothing lost, nothing duplicated, nothing reordered. */
  ghost predicate InOrder(a: State, e: nat, log: Log)
    requires Defined(a)
  {
    e in a.eps && log.sent == log.received + Waiting(a, e)
  }

  lemma {:induction false} LogStepInOrder(a: State, ev: Event, b: State, e: nat, log: Log)
    requires AtUser(a) && Enabled(a, ev) && Trap(a, ev) == Some(b) && InOrder(a, e, log)
    ensures b.th.Keys == a.th.Keys && InOrder(b, e, LogStep(a, ev, b, e, log))
  {
    TrapMeets(a, ev, b);
    if !ev.Tick? { NotWaiting(a.qs, a.current); }
    MeetsInOrder(a, ev, b, e, log);
  }

  lemma {:induction false} MeetsInOrder(a: State, ev: Event, b: State, e: nat, log: Log)
    requires Defined(a) && Defined(b) && Enabled(a, ev) && Meets(a, ev, b) && InOrder(a, e, log)
    requires (ev.Tick? || forall i :: 0 <= i < |a.qs[OfEp(e)]| ==> a.qs[OfEp(e)][i] != a.current)
    requires a.eps[e].Free? ==> a.qs[OfEp(e)] == []
    ensures InOrder(b, e, LogStep(a, ev, b, e, log))
  {
    if !((ev.Send? || ev.Recv?) && ev.ep == e) {
      Elsewhere(a, ev, b, e);
    } else if ev.Send? {
      SendInOrder(a, ev, b, e, log);
    } else {
      RecvInOrder(a, ev, b, e, log);
    }
  }

  /** A trap that does not concern endpoint e leaves its waiting senders and their badges. */
  lemma {:induction false} Elsewhere(a: State, ev: Event, b: State, e: nat)
    requires Defined(a) && Defined(b) && Enabled(a, ev) && Meets(a, ev, b) && e in a.eps
    requires !((ev.Send? || ev.Recv?) && ev.ep == e)
    requires ev.Send? ==> forall i :: 0 <= i < |a.qs[OfEp(e)]| ==> a.qs[OfEp(e)][i] != a.current
    ensures e in b.eps && Waiting(b, e) == Waiting(a, e)
  {
    SameQueueElsewhere(a, ev, b, e);
    assert Badges(b.th, b.qs[OfEp(e)]) == Badges(a.th, a.qs[OfEp(e)]);
  }

  lemma {:induction false} SameQueueElsewhere(a: State, ev: Event, b: State, e: nat)
    requires Defined(a) && Enabled(a, ev) && QueuesMeet(a, ev, b) && e in a.eps
    requires !((ev.Send? || ev.Recv?) && ev.ep == e)
    ensures OfEp(e) in b.qs && b.qs[OfEp(e)] == a.qs[OfEp(e)] && e in b.eps && b.eps[e] == a.eps[e]
  {
  }

  lemma {:induction false} SendInOrder(a: State, ev: Event, b: State, e: nat, log: Log)
    requires Defined(a) && Defined(b) && ev.Send? && ev.ep == e && Enabled(a, ev) && Meets(a, ev, b) && InOrder(a, e, log)
    requires forall i :: 0 <= i < |a.qs[OfEp(e)]| ==> a.qs[OfEp(e)][i] != a.current
    requires a.eps[e].Free? ==> a.qs[OfEp(e)] == []
    ensures InOrder(b, e, LogStep(a, ev, b, e, log))
  {
    var log' := LogStep(a, ev, b, e, log);
    if a.eps[e] != Receiving {
      assert Waiting(b, e) == Waiting(a, e) + [ev.badge];
      assert log'.sent == log'.received + Waiting(b, e);
    }
  }

  lemma {:induction false} Regroup(r: seq<nat>, x: nat, w: seq<nat>)
    ensures r + ([x] + w) == (r + [x]) + w
  {
  }

  lemma {:induction false} BadgesTail(th: ThreadMap, th': ThreadMap, q: seq<Tid>)
    requires q != [] && forall i :: 0 <= i < |q| ==> q[i] in th && q[i] in th' && th'[q[i]].badge == th[q[i]].badge
    ensures Badges(th, q) == [th[q[0]].badge] + Badges(th', q[1..])
  {
  }

  lemma {:induction false} RecvInOrder(a: State, ev: Event, b: State, e: nat, log: Log)
    requires Defined(a) && Defined(b) && ev.Recv? && ev.ep == e && Enabled(a, ev) && Meets(a, ev, b) && InOrder(a, e, log)
    ensures InOrder(b, e, LogStep(a, ev, b, e, log))
  {
    var q := a.qs[OfEp(e)];
    if a.eps[e] == Sending {
      BadgesTail(a.th, b.th, q);
      assert Waiting(b, e) == Badges(b.th, q[1..]);
      Regroup(log.received, a.th[q[0]].badge, Waiting(b, e));
    }
  }

  /** The log of endpoint e over a run. */
  ghost function RunLog(a: State, evs: seq<Event>, e: nat, log: Log): (r: Log)
    requires AtUser(a) && Runs(a, evs) && e in a.eps
    decreases |evs|
  {
    if evs == [] then log
    else
      var b := Trap(a, evs[0]).value;
      TrapMeets(a, evs[0], b);
      RunLog(b, evs[1..], e, LogStep(a, evs[0], b, e, log))
  }

  /** Over every run, the badges sent through an endpoint are, in order, those received followed
      by those whose senders still wait: whichever side comes first, each completed send is paired
      with one receive, which finds the badge of the capability used in its register. */
  lemma {:induction false} MessagesInOrder(a: State, evs: seq<Event>, e: nat, log: Log)
    requires AtUser(a) && Runs(a, evs) && InOrder(a, e, log)
    ensures AtUser(Last(a, evs)) && InOrder(Last(a, evs), e, RunLog(a, evs, e, log))
    decreases |evs|
  {
    if evs != [] {
      var b := Trap(a, evs[0]).value;
      LogStepInOrder(a, evs[0], b, e, log);
      MessagesInOrder(b, evs[1..], e, LogStep(a, evs[0], b, e, log));
    }
  }

  /** Sender s and receiver r meet in this trap, whichever of them came first. */
  ghost predicate Meeting(a: State, ev: Event, s: Tid, r: Tid)
    requires Defined(a) && Enabled(a, ev)
  {
    || (ev.Send? && a.eps[ev.ep] == Receiving && s == a.current && r == a.qs[OfEp(ev.ep)][0])
    || (ev.Recv? && a.eps[ev.ep] == Sending && s == a.qs[OfEp(ev.ep)][0] && r == a.current)
  }

  /** When they meet, the receiver's register holds the badge of the capability the sender used, now
      or when it blocked, and, if both have an IPC buffer, the receiver's holds the sender's message;
      no other buffer changes. */
  lemma {:induction false} MessageArrives(a: State, ev: Event, b: State, s: Tid, r: Tid)
    requires AtUser(a) && Enabled(a, ev) && Trap(a, ev) == Some(b) && Meeting(a, ev, s, r)
    ensures s != r && r in b.th && b.th[r].a1 == (if ev.Send? then ev.badge else a.th[s].badge)
    ensures a.th[s].ipc.Some? && a.th[r].ipc.Some? && a.th[s].ipc.value in a.msgs ==>
              a.th[r].ipc.value in b.msgs && b.msgs[a.th[r].ipc.value] == a.msgs[a.th[s].ipc.value]
    ensures forall p :: p in a.msgs && a.th[r].ipc != Some(p) ==> p in b.msgs && b.msgs[p] == a.msgs[p]
    ensures a.th[s].ipc.None? || a.th[r].ipc.None? ==> b.msgs == a.msgs
  {
    TrapMeets(a, ev, b);
    WaitsIs(a.qs, OfEp(ev.ep), 0);
    MessageCopied(a, ev, b, s, r);
  }

  lemma {:induction false} MessageCopied(a: State, ev: Event, b: State, s: Tid, r: Tid)
    requires Defined(a) && Enabled(a, ev) && Meets(a, ev, b) && Meeting(a, ev, s, r) && s != r
    ensures r in b.th && b.th[r].a1 == (if ev.Send? then ev.badge else a.th[s].badge)
    ensures a.th[s].ipc.Some? && a.th[r].ipc.Some? && a.th[s].ipc.value in a.msgs ==>
              a.th[r].ipc.value in b.msgs && b.msgs[a.th[r].ipc.value] == a.msgs[a.th[s].ipc.value]
    ensures forall p :: p in a.msgs && a.th[r].ipc != Some(p) ==> p in b.msgs && b.msgs[p] == a.msgs[p]
    ensures a.th[s].ipc.None? || a.th[r].ipc.None? ==> b.msgs == a.msgs
  {
    assert b.msgs == CopyMsg(a, s, r);
  }

  // ---------------------------------------------------------------- who waits where

  /** The last call of each thread, after one more trap. */
  function Calls(a: State, ev: Event, calls: map<Tid, Event>): (r: map<Tid, Event>)
  {
    if ev.Tick? then calls else calls[a.current := ev]
  }

  /** A thread that waits at endpoint e on this side, with this badge, asked for that. */
  predicate AskedFor(calls: map<Tid, Event>, t: Tid, e: nat, side: Side, badge: nat)
  {
    t in calls && calls[t] == if side == Sending then Send(e, badge) else Recv(e)
  }

  ghost predicate AskedAt(a: State, calls: map<Tid, Event>, e: nat)
    requires Defined(a) && e in a.eps
  {
    forall i :: 0 <= i < |a.qs[OfEp(e)]| ==> AskedFor(calls, a.qs[OfEp(e)][i], e, a.eps[e], a.th[a.qs[OfEp(e)][i]].badge)
  }

  /** Whoever waits at an endpoint called for the side that the endpoint names, with the badge it
      carries: senders and receivers never wait together.  Whoever waits at a notification called
      to wait there. */
  ghost predicate Asked(a: State, calls: map<Tid, Event>)
    requires Defined(a)
  {
    && (forall e :: e in a.eps ==> AskedAt(a, calls, e))
    && (forall n, i :: n in a.nts && 0 <= i < |a.qs[OfNt(n)]| ==> a.qs[OfNt(n)][i] in calls && calls[a.qs[OfNt(n)][i]] == Wait(n))
  }

  /** The caller is not among those that wait in q. */
  ghost predicate Apart(a: State, ev: Event, q: seq<Tid>) { ev.Tick? || forall i :: 0 <= i < |q| ==> q[i] != a.current }

  lemma {:induction false} StepAskedAt(a: State, ev: Event, b: State, calls: map<Tid, Event>, e: nat)
    requires Defined(a) && Defined(b) && Enabled(a, ev) && Meets(a, ev, b) && e in a.eps && AskedAt(a, calls, e)
    requires Apart(a, ev, a.qs[OfEp(e)]) && (a.eps[e].Free? ==> a.qs[OfEp(e)] == [])
    ensures e in b.eps && AskedAt(b, Calls(a, ev, calls), e)
  {
    if !((ev.Send? || ev.Recv?) && ev.ep == e) {
      SameQueueElsewhere(a, ev, b, e);
    } else if ev.Send? {
      SendAsked(a, ev, b, calls, e);
    } else {
      RecvAsked(a, ev, b, calls, e);
    }
  }

  lemma {:induction false} SendAsked(a: State, ev: Event, b: State, calls: map<Tid, Event>, e: nat)
    requires Defined(a) && Defined(b) && ev.Send? && ev.ep == e && Enabled(a, ev) && Meets(a, ev, b) && AskedAt(a, calls, e)
    requires Apart(a, ev, a.qs[OfEp(e)]) && (a.eps[e].Free? ==> a.qs[OfEp(e)] == [])
    ensures e in b.eps && AskedAt(b, Calls(a, ev, calls), e)
  {
  }

  lemma {:induction false} RecvAsked(a: State, ev: Event, b: State, calls: map<Tid, Event>, e: nat)
    requires Defined(a) && Defined(b) && ev.Recv? && ev.ep == e && Enabled(a, ev) && Meets(a, ev, b) && AskedAt(a, calls, e)
    requires Apart(a, ev, a.qs[OfEp(e)]) && (a.eps[e].Free? ==> a.qs[OfEp(e)] == [])
    ensures e in b.eps && AskedAt(b, Calls(a, ev, calls), e)
  {
  }

  lemma {:induction false} StepAskedNt(a: State, ev: Event, b: State, calls: map<Tid, Event>, n: nat)
    requires Defined(a) && Defined(b) && Enabled(a, ev) && Meets(a, ev, b) && n in a.nts
    requires forall i :: 0 <= i < |a.qs[OfNt(n)]| ==> a.qs[OfNt(n)][i] in calls && calls[a.qs[OfNt(n)][i]] == Wait(n)
    requires Apart(a, ev, a.qs[OfNt(n)])
    ensures n in b.nts && forall i :: 0 <= i < |b.qs[OfNt(n)]| ==>
                                        b.qs[OfNt(n)][i] in Calls(a, ev, calls) && Calls(a, ev, calls)[b.qs[OfNt(n)][i]] == Wait(n)
  {
  }

  lemma {:induction false} SameObjects(a: State, ev: Event, b: State)
    requires Defined(a) && Enabled(a, ev) && QueuesMeet(a, ev, b)
    ensures b.eps.Keys == a.eps.Keys && b.nts.Keys == a.nts.Keys
  {
  }

  lemma {:induction false} StepAsked(a: State, ev: Event, b: State, calls: map<Tid, Event>)
    requires AtUser(a) && Enabled(a, ev) && Trap(a, ev) == Some(b) && Asked(a, calls)
    ensures Asked(b, Calls(a, ev, calls))
  {
    TrapMeets(a, ev, b);
    if !ev.Tick? { NotWaiting(a.qs, a.current); }
    MeetsAsked(a, ev, b, calls);
  }

  lemma {:induction false} MeetsAsked(a: State, ev: Event, b: State, calls: map<Tid, Event>)
    requires Defined(a) && Defined(b) && Enabled(a, ev) && Meets(a, ev, b) && Asked(a, calls)
    requires forall k :: k in a.qs ==> Apart(a, ev, a.qs[k])
    requires forall e :: e in a.eps && a.eps[e].Free? ==> a.qs[OfEp(e)] == []
    ensures Asked(b, Calls(a, ev, calls))
  {
    SameObjects(a, ev, b);
    forall e | e in b.eps
      ensures AskedAt(b, Calls(a, ev, calls), e)
    {
      StepAskedAt(a, ev, b, calls, e);
    }
    forall n | n in b.nts
      ensures forall i :: 0 <= i < |b.qs[OfNt(n)]| ==>
                            b.qs[OfNt(n)][i] in Calls(a, ev, calls) && Calls(a, ev, calls)[b.qs[OfNt(n)][i]] == Wait(n)
    {
      StepAskedNt(a, ev, b, calls, n);
    }
  }

  ghost function RunCalls(a: State, evs: seq<Event>, calls: map<Tid, Event>): (r: map<Tid, Event>)
    requires AtUser(a) && Runs(a, evs)
    decreases |evs|
  {
    if evs == [] then calls else RunCalls(Trap(a, evs[0]).value, evs[1..], Calls(a, evs[0], calls))
  }

  /** Over every run, each thread waits exactly where, and on the side, it last asked to. */
  lemma {:induction false} WaitersAsked(a: State, evs: seq<Event>, calls: map<Tid, Event>)
    requires AtUser(a) && Runs(a, evs) && Asked(a, calls)
    ensures AtUser(Last(a, evs)) && Asked(Last(a, evs), RunCalls(a, evs, calls))
    decreases |evs|
  {
    if evs != [] {
      StepAsked(a, evs[0], Trap(a, evs[0]).value, calls);
      WaitersAsked(Trap(a, evs[0]).value, evs[1..], Calls(a, evs[0], calls));
    }
  }

  // ---------------------------------------------------------------- results over a run

  /** Every thread that has called finds the result of its last call in a0. */
  ghost predicate Answered(a: State, calls: map<Tid, Event>)
  {
    forall t :: t in calls ==> t in a.th && a.th[t].a0 == ResultOf(calls[t])
  }

  lemma {:induction false} StepAnswered(a: State, ev: Event, b: State, calls: map<Tid, Event>)
    requires AtUser(a) && Enabled(a, ev) && Trap(a, ev) == Some(b) && Answered(a, calls)
    ensures Answered(b, Calls(a, ev, calls))
  {
    TrapMeets(a, ev, b);
    MeetsAnswered(a, ev, b, calls);
  }

  lemma {:induction false} MeetsAnswered(a: State, ev: Event, b: State, calls: map<Tid, Event>)
    requires Defined(a) && Enabled(a, ev) && RegistersMeet(a, ev, b) && Answered(a, calls)
    ensures Answered(b, Calls(a, ev, calls))
  {
  }

  /** Over every run each thread finds in a0 the result of its own last call, whatever others do meanwhile. */
  lemma {:induction false} ResultsStay(a: State, evs: seq<Event>, calls: map<Tid, Event>)
    requires AtUser(a) && Runs(a, evs) && Answered(a, calls)
    ensures Answered(Last(a, evs), RunCalls(a, evs, calls))
    decreases |evs|
  {
    if evs != [] {
      StepAnswered(a, evs[0], Trap(a, evs[0]).value, calls);
      ResultsStay(Trap(a, evs[0]).value, evs[1..], Calls(a, evs[0], calls));
    }
  }

  /** So a thread that blocked in a send, receive or wait finds 0 in a0 when it runs again, and until its next call. */
  lemma {:induction false} WaiterFindsZero(a: State, evs: seq<Event>, calls: map<Tid, Event>, t: Tid)
    requires AtUser(a) && Runs(a, evs) && Asked(a, calls) && Answered(a, calls) && Waits(a.qs, t)
    requires t in calls ==> t in RunCalls(a, evs, calls) && RunCalls(a, evs, calls)[t] == calls[t]
    ensures t in calls && (calls[t].Send? || calls[t].Recv? || calls[t].Wait?)
    ensures t in Last(a, evs).th && Last(a, evs).th[t].a0 == 0
  {
    WaiterCalled(a, calls, t);
    ResultsStay(a, evs, calls);
  }

  lemma {:induction false} WaiterCalled(a: State, calls: map<Tid, Event>, t: Tid)
    requires Core(a) && Asked(a, calls) && Waits(a.qs, t)
    ensures t in calls && (calls[t].Send? || calls[t].Recv? || calls[t].Wait?)
  {
    var k :| k in a.qs && t in a.qs[k];
    var i: nat :| i < |a.qs[k]| && a.qs[k][i] == t;
    if k.OfEp? {
      assert AskedAt(a, calls, k.ep);
      assert AskedFor(calls, t, k.ep, a.eps[k.ep], a.th[t].badge);
    } else {
      assert calls[a.qs[OfNt(k.nt)][i]] == Wait(k.nt);
    }
  }

  // ---------------------------------------------------------------- signals over a run

  /** The or of all values signalled, of all values found in waiters' registers, and of the values
      signalled since a signal was last picked up. */
  datatype SignalLog = SignalLog(sent: nat, delivered: nat, since: nat)

  function SignalStep(a: State, ev: Event, b: State, n: nat, log: SignalLog): (r: SignalLog)
    requires Defined(a) && Enabled(a, ev) && n in a.nts && b.th.Keys == a.th.Keys
  {
    match ev
    case Signal(n', val) =>
      if n' != n then log
      else if a.qs[OfNt(n)] != [] then
        SignalLog(Or(log.sent, val), Or(log.delivered, b.th[a.qs[OfNt(n)][0]].a1), log.since)
      else SignalLog(Or(log.sent, val), log.delivered, Or(log.since, val))
    case Wait(n') =>
      if n' == n && a.nts[n].isSet then SignalLog(log.sent, Or(log.delivered, b.th[a.current].a1), 0) else log
    case _ => log
  }

  /** Every value sent has been delivered or is pending, and nothing else has. */
  ghost predicate Accounted(a: State, n: nat, log: SignalLog)
  {
    n in a.nts && log.sent == Or(log.delivered, a.nts[n].bits) && a.nts[n].bits == log.since
  }

  lemma {:induction false} SignalStepAccounted(a: State, ev: Event, b: State, n: nat, log: SignalLog)
    requires AtUser(a) && Enabled(a, ev) && Trap(a, ev) == Some(b) && Accounted(a, n, log)
    ensures b.th.Keys == a.th.Keys && Accounted(b, n, SignalStep(a, ev, b, n, log))
  {
    TrapMeets(a, ev, b);
    SignalMeetsAccounted(a, ev, b, n, log);
  }

  lemma {:induction false} SignalMeetsAccounted(a: State, ev: Event, b: State, n: nat, log: SignalLog)
    requires Defined(a) && Enabled(a, ev) && Meets(a, ev, b) && Accounted(a, n, log)
    requires a.qs[OfNt(n)] != [] ==> a.nts[n].bits == 0
    ensures Accounted(b, n, SignalStep(a, ev, b, n, log))
  {
    if ev.Signal? && ev.nt == n {
      if a.qs[OfNt(n)] != [] {
        OrZero(log.delivered);
        OrZero(Or(log.delivered, ev.val));
      } else {
        OrAssociates(log.delivered, a.nts[n].bits, ev.val);
      }
    } else if ev.Wait? && ev.nt == n {
      OrZero(Or(log.delivered, a.nts[n].bits));
    }
  }

  ghost function RunSignals(a: State, evs: seq<Event>, n: nat, log: SignalLog): (r: SignalLog)
    requires AtUser(a) && Runs(a, evs) && n in a.nts
    decreases |evs|
  {
    if evs == [] then log
    else
      var b := Trap(a, evs[0]).value;
      TrapMeets(a, evs[0], b);
      RunSignals(b, evs[1..], n, SignalStep(a, evs[0], b, n, log))
  }

  /** No signal is lost over any run: the or of all values sent is the or of all values delivered
      and the pending bits, and the pending bits are those sent since the last pick-up. */
  lemma {:induction false} NoSignalLost(a: State, evs: seq<Event>, n: nat, log: SignalLog)
    requires AtUser(a) && Runs(a, evs) && Accounted(a, n, log)
    ensures Accounted(Last(a, evs), n, RunSignals(a, evs, n, log))
    decreases |evs|
  {
    if evs != [] {
      var b := Trap(a, evs[0]).value;
      SignalStepAccounted(a, evs[0], b, n, log);
      NoSignalLost(b, evs[1..], n, SignalStep(a, evs[0], b, n, log));
    }
  }

  // ---------------------------------------------------------------- where the links get in the way

  /** The calls that stop the kernel: popping leaves links set, so a partner taken from among
      several and a blocking thread that was popped from among several both fail the check. */
  ghost predicate Stops(a: State, ev: Event)
    requires AtUser(a) && Enabled(a, ev)
  {
    match ev
    case Send(e, _) => if a.eps[e] == Receiving then |a.qs[OfEp(e)]| >= 2 else a.th[a.current].next.Some?
    case Recv(e) => if a.eps[e] == Sending then |a.qs[OfEp(e)]| >= 2 else a.th[a.current].next.Some?
    case Signal(n, _) => |a.qs[OfNt(n)]| >= 2
    case Wait(n) => !a.nts[n].isSet && a.th[a.current].next.Some?
    case _ => false
  }

  lemma {:induction false} FirstLink(th: ThreadMap, qs: Queues, k: QId)
    requires Linked(th, qs) && k in qs && qs[k] != []
    ensures th[qs[k][0]].next.Some? <==> |qs[k]| >= 2
  {
    if |qs[k]| == 1 { assert qs[k][|qs[k]| - 1] == qs[k][0]; }
    if |qs[k]| >= 2 { assert th[qs[k][0]].next == Some(qs[k][0 + 1]); }
  }

  /** A trap stops the kernel in exactly these cases. */
  lemma {:induction false} StopsExactly(a: State, ev: Event)
    requires AtUser(a) && Enabled(a, ev)
    ensures Trap(a, ev) == None <==> Stops(a, ev)
  {
    match ev
    case Send(e, _) =>
      if a.eps[e] == Receiving { FirstLink(a.th, a.qs, OfEp(e)); WaitsIs(a.qs, OfEp(e), 0); }
    case Recv(e) =>
      if a.eps[e] == Sending { FirstLink(a.th, a.qs, OfEp(e)); WaitsIs(a.qs, OfEp(e), 0); }
    case Signal(n, _) =>
      if a.qs[OfNt(n)] != [] { FirstLink(a.th, a.qs, OfNt(n)); }
    case _ =>
  }

  /** A thread that blocks does not run on, whatever the run queue holds. */
  lemma {:induction false} BlockedGivesWay(a: State, ev: Event, b: State)
    requires AtUser(a) && Enabled(a, ev) && Trap(a, ev) == Some(b) && !ev.Tick? && Waits(b.qs, a.current)
    ensures b.current != a.current
  {
    var c := Handle(a, ev).value;
    HandleKeeps(a, ev);
    HandleMeets(a, ev, c);
    ScheduleLeavesObjects(c);
    CallerBlocked(a, ev, c);
    ScheduleGivesWay(c);
  }

  lemma {:induction false} ScheduleGivesWay(c: State)
    requires Closed(c) && RunOk(c.th, c.run, c.qs, c.current) && HasBlocked(c)
    ensures Schedule(c).current != c.current
  {
  }

  /** A caller that waits after its call has blocked: its link is clear and scheduling is requested. */
  ghost predicate HasBlocked(c: State)
  {
    c.requested && c.current in c.th && c.th[c.current].next == None && c.th[c.current].status == Blocked && c.current != IDLE
  }

  lemma {:induction false} BlockBlocks(a: State, k: QId, b: State)
    requires Closed(a) && !Waits(a.qs, a.current) && a.current != IDLE && k in a.qs && Block(a, k) == Some(b)
    ensures HasBlocked(b)
  {
    NotWaiting(a.qs, a.current);
  }

  /** Popping a queue and changing threads makes nobody wait. */
  lemma {:induction false} StillNotWaiting(qs: Queues, k: QId, u: Tid)
    requires !Waits(qs, u) && k in qs && qs[k] != []
    ensures !Waits(qs[k := qs[k][1..]], u)
  {
    PopWaiters(qs, k, u);
  }

  lemma {:induction false} CallBlocks(a: State, ev: Event, b: State)
    requires Defined(a) && Enabled(a, ev) && !ev.Tick? && Call(a, ev) == Some(b) && b.qs == QueuesAfter(a, ev) && Waits(b.qs, a.current)
    ensures HasBlocked(b) && b.current == a.current
  {
    match ev
    case Send(e, badge) =>
      if a.eps[e] == Receiving {
        StillNotWaiting(a.qs, OfEp(e), a.current);
      } else {
        var c := SetThread(a, a.current, a.th[a.current].(badge := badge));
        BlockBlocks(c.(eps := c.eps[e := Sending]), OfEp(e), b);
      }
    case Recv(e) =>
      if a.eps[e] == Sending {
        StillNotWaiting(a.qs, OfEp(e), a.current);
      } else {
        BlockBlocks(a.(eps := a.eps[e := Receiving]), OfEp(e), b);
      }
    case Signal(n, _) =>
      if a.qs[OfNt(n)] != [] { StillNotWaiting(a.qs, OfNt(n), a.current); }
    case Wait(n) =>
      if !a.nts[n].isSet { BlockBlocks(a, OfNt(n), b); }
    case _ =>
  }

  lemma {:induction false} CallerBlocked(a: State, ev: Event, c: State)
    requires AtUser(a) && Enabled(a, ev) && !ev.Tick? && Handle(a, ev) == Some(c) && Waits(c.qs, a.current)
    ensures HasBlocked(c) && c.current == a.current
  {
    var b := Call(a, ev).value;
    CallMeetsHolds(a, ev, b);
    CallBlocks(a, ev, b);
  }

  // ---------------------------------------------------------------- what a caller sees

  /** The first thread that waited at k can run. */
  ghost predicate Leaves(a: State, b: State, k: QId)
  {
    && k in a.qs && a.qs[k] != [] && b.qs == a.qs[k := a.qs[k][1..]]
    && a.qs[k][0] in a.th && a.qs[k][0] in b.th && b.th[a.qs[k][0]].status == Runnable
  }

  /** The caller waits at k, as the last, and does not run on. */
  ghost predicate Joins(a: State, b: State, k: QId)
  {
    && k in a.qs && b.qs == a.qs[k := a.qs[k] + [a.current]] && a.current in b.th && b.th[a.current].status == Blocked
    && b.current != a.current
  }

  lemma {:induction false} CallerJoins(a: State, ev: Event, b: State, k: QId)
    requires AtUser(a) && Enabled(a, ev) && !ev.Tick? && Trap(a, ev) == Some(b) && Meets(a, ev, b) && MustWait(a, ev) && Woken(a, ev).None?
    requires k in a.qs && QueuesAfter(a, ev) == a.qs[k := a.qs[k] + [a.current]]
    ensures Joins(a, b, k)
  {
    assert ThreadMeets(a, ev, a.current, b.th[a.current]);
    assert b.qs[k][|a.qs[k]|] == a.current;
    WaitsIs(b.qs, k, |a.qs[k]|);
    BlockedGivesWay(a, ev, b);
  }

  lemma {:induction false} PartnerLeaves(a: State, ev: Event, b: State, k: QId)
    requires Defined(a) && Enabled(a, ev) && Meets(a, ev, b) && k in a.qs && a.qs[k] != []
    requires Woken(a, ev) == Some(a.qs[k][0]) && QueuesAfter(a, ev) == a.qs[k := a.qs[k][1..]]
    ensures Leaves(a, b, k) && b.th[a.qs[k][0]].a1 == A1After(a, ev, a.qs[k][0])
  {
    assert ThreadMeets(a, ev, a.qs[k][0], b.th[a.qs[k][0]]);
  }

  lemma {:induction false} CallerMeets(a: State, ev: Event, b: State)
    requires Defined(a) && Enabled(a, ev) && !ev.Tick? && Meets(a, ev, b)
    ensures a.current in b.th && b.th[a.current].a0 == ResultOf(ev) && b.th[a.current].a1 == A1After(a, ev, a.current)
    ensures b.th[a.current].badge == if ev.Send? then ev.badge else a.th[a.current].badge
  {
    assert ThreadMeets(a, ev, a.current, b.th[a.current]);
  }

  /** What a send does: the first waiting receiver finds the badge in a1 and can run; if none waits, the caller waits as
      a sender, with that badge.  The caller is told 0. */
  ghost predicate Sent(a: State, b: State, e: nat, badge: nat)
  {
    && e in a.eps && OfEp(e) in a.qs && a.current in b.th && b.th[a.current].a0 == 0 && b.nts == a.nts
    && if a.eps[e] == Receiving then Leaves(a, b, OfEp(e)) && b.th[a.qs[OfEp(e)][0]].a1 == badge
       else Joins(a, b, OfEp(e)) && b.eps == a.eps[e := Sending] && b.th[a.current].badge == badge
  }

  lemma {:induction false} SendDoes(a: State, e: nat, badge: nat, b: State)
    requires AtUser(a) && Enabled(a, Send(e, badge)) && Trap(a, Send(e, badge)) == Some(b)
    ensures Sent(a, b, e, badge)
  {
    var ev := Send(e, badge);
    TrapMeets(a, ev, b);
    CallerMeets(a, ev, b);
    if a.eps[e] == Receiving {
      PartnerLeaves(a, ev, b, OfEp(e));
    } else {
      CallerJoins(a, ev, b, OfEp(e));
    }
  }

  /** What a receive does: the caller finds the badge of the first waiting sender in a1, and that sender can run; if none
      waits, the caller waits as a receiver. */
  ghost predicate Received(a: State, b: State, e: nat)
  {
    && e in a.eps && OfEp(e) in a.qs && a.current in b.th && b.th[a.current].a0 == 0 && b.nts == a.nts
    && if a.eps[e] == Sending then Leaves(a, b, OfEp(e)) && b.th[a.current].a1 == a.th[a.qs[OfEp(e)][0]].badge
       else Joins(a, b, OfEp(e)) && b.eps == a.eps[e := Receiving]
  }

  lemma {:induction false} ReceiveDoes(a: State, e: nat, b: State)
    requires AtUser(a) && Enabled(a, Recv(e)) && Trap(a, Recv(e)) == Some(b)
    ensures Received(a, b, e)
  {
    var ev := Recv(e);
    TrapMeets(a, ev, b);
    CallerMeets(a, ev, b);
    if a.eps[e] == Sending {
      PartnerLeaves(a, ev, b, OfEp(e));
    } else {
      CallerJoins(a, ev, b, OfEp(e));
    }
  }

  /** What a signal does: the first waiter finds the value in a1 and can run; if none waits, it is added to the pending
      bits. */
  ghost predicate WasSignalled(a: State, b: State, n: nat, val: nat)
  {
    && n in a.nts && OfNt(n) in a.qs && a.current in b.th && b.th[a.current].a0 == 0 && b.eps == a.eps
    && if a.qs[OfNt(n)] != [] then Leaves(a, b, OfNt(n)) && b.th[a.qs[OfNt(n)][0]].a1 == val && b.nts == a.nts
       else b.qs == a.qs && b.nts == a.nts[n := Pending(Or(a.nts[n].bits, val), true)]
  }

  lemma {:induction false} SignalDoes(a: State, n: nat, val: nat, b: State)
    requires AtUser(a) && Enabled(a, Signal(n, val)) && Trap(a, Signal(n, val)) == Some(b)
    ensures WasSignalled(a, b, n, val)
  {
    var ev := Signal(n, val);
    TrapMeets(a, ev, b);
    CallerMeets(a, ev, b);
    if a.qs[OfNt(n)] != [] {
      PartnerLeaves(a, ev, b, OfNt(n));
    }
  }

  /** What waiting does: the caller finds the pending bits in a1, which are then cleared; if nothing is pending, it waits. */
  ghost predicate Awaited(a: State, b: State, n: nat)
  {
    && n in a.nts && OfNt(n) in a.qs && a.current in b.th && b.th[a.current].a0 == 0 && b.eps == a.eps
    && if a.nts[n].isSet then b.qs == a.qs && b.th[a.current].a1 == a.nts[n].bits && b.nts == a.nts[n := Pending(0, false)]
       else Joins(a, b, OfNt(n)) && b.nts == a.nts
  }

  lemma {:induction false} WaitDoes(a: State, n: nat, b: State)
    requires AtUser(a) && Enabled(a, Wait(n)) && Trap(a, Wait(n)) == Some(b)
    ensures Awaited(a, b, n)
  {
    var ev := Wait(n);
    TrapMeets(a, ev, b);
    CallerMeets(a, ev, b);
    if !a.nts[n].isSet {
      CallerJoins(a, ev, b, OfNt(n));
    }
  }

  lemma {:induction false} ResumeDoes(a: State, t: Tid, b: State)
    requires AtUser(a) && Enabled(a, Resume(t)) && Trap(a, Resume(t)) == Some(b)
    ensures t in b.th && b.th[t].status == Runnable && b.qs == a.qs && a.current in b.th && b.th[a.current].a0 == 0
  {
    TrapMeets(a, Resume(t), b);
    CallerMeets(a, Resume(t), b);
    assert ThreadMeets(a, Resume(t), t, b.th[t]);
  }

  /** The caller finds v0 and v1 in its registers; of other threads no register has changed, and nothing that threads
      communicate by. */
  ghost predicate OnlyTold(a: State, b: State, v0: nat, v1: nat)
  {
    && b.th.Keys == a.th.Keys && a.current in b.th && b.th[a.current].a0 == v0 && b.th[a.current].a1 == v1
    && b.qs == a.qs && b.eps == a.eps && b.nts == a.nts && b.msgs == a.msgs
    && forall t :: t in a.th && t != a.current ==> b.th[t].a0 == a.th[t].a0 && b.th[t].a1 == a.th[t].a1
  }

  lemma {:induction false} OtherDoes(a: State, v0: nat, v1: nat, b: State)
    requires AtUser(a) && Enabled(a, Other(v0, v1)) && Trap(a, Other(v0, v1)) == Some(b)
    ensures OnlyTold(a, b, v0, v1)
  {
    var ev := Other(v0, v1);
    TrapMeets(a, ev, b);
    CallerMeets(a, ev, b);
    forall t | t in a.th && t != a.current
      ensures b.th[t].a0 == a.th[t].a0 && b.th[t].a1 == a.th[t].a1
    {
      assert ThreadMeets(a, ev, t, b.th[t]);
    }
  }
}
