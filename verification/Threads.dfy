/**
 Threads, endpoints, notifications and the scheduler as one machine whose steps are traps:
 a timer tick or a system call, followed by `schedule`.  The queues of endpoints and
 notifications are sequences here; the linked form that the kernel uses is in ThreadKernel.
 The run queue is what it is in the kernel, two pointers over the links of the threads,
 because popping leaves links set and the scheduler follows them wherever they lead.
 A step that fails a check of a link, or underflows a time slice, stops the kernel (`None`).
 */
module Threads {
  import opened Kinds
  import opened Bits

  type Tid = nat
  const IDLE: Tid := 0
  const TASK_QUANTUM: nat := 20

  datatype Status = Inactive | Runnable | Blocked | Idle

  /** The parts of a thread that scheduling and communication touch. `ipc` is the frame of its
      IPC buffer. */
  datatype Thread = Thread(status: Status, slice: nat, a0: nat, a1: nat, badge: nat, ipc: Option<nat>, next: Option<Tid>)

  /** A linked list of threads: its two ends. */
  datatype List = List(head: Option<Tid>, last: Option<Tid>)

  datatype Side = Sending | Receiving | Free

  datatype Pending = Pending(bits: nat, isSet: bool)

  /** The places where threads wait. */
  datatype QId = OfEp(ep: nat) | OfNt(nt: nat)

  type ThreadMap = map<Tid, Thread>
  type Queues = map<QId, seq<Tid>>

  datatype State = State(
    th: ThreadMap,
    msgs: map<nat, seq<nat>>,
    run: List,
    qs: Queues,
    requested: bool,
    current: Tid,
    eps: map<nat, Side>,
    nts: map<nat, Pending>)

  datatype Event =
    | Tick
    | Send(ep: nat, badge: nat)
    | Recv(ep: nat)
    | Signal(nt: nat, val: nat)
    | Wait(nt: nat)
    | Resume(t: Tid)
    | Other(a0: nat, a1: nat)

  // ---------------------------------------------------------------- waiting threads

  /** No thread waits twice. */
  ghost predicate Unique(qs: Queues)
  {
    forall k, i, k', i' :: k in qs && k' in qs && 0 <= i < |qs[k]| && 0 <= i' < |qs[k']| && qs[k][i] == qs[k'][i'] ==>
      k == k' && i == i'
  }

  /** Waiting threads exist, each in one place only, linked in order, and the last one in each place
      has no link. */
  ghost predicate Linked(th: ThreadMap, qs: Queues)
  {
    && (forall k, i :: k in qs && 0 <= i < |qs[k]| ==> qs[k][i] in th && qs[k][i] != IDLE)
    && Unique(qs)
    && (forall k, i :: k in qs && 0 <= i < |qs[k]| - 1 ==> th[qs[k][i]].next == Some(qs[k][i + 1]))
    && (forall k :: k in qs && qs[k] != [] ==> th[qs[k][|qs[k]| - 1]].next == None)
  }

  ghost predicate Waits(qs: Queues, t: Tid) { exists k :: k in qs && t in qs[k] }

  /** Threads that wait are blocked. */
  ghost predicate AllBlocked(th: ThreadMap, qs: Queues)
  {
    forall k, i :: k in qs && 0 <= i < |qs[k]| && qs[k][i] in th ==> th[qs[k][i]].status == Blocked
  }

  /** An endpoint is free exactly when nobody waits there; nobody waits at a notification that
      holds a signal, and one that holds none has no bits set. */
  ghost predicate Objects(qs: Queues, eps: map<nat, Side>, nts: map<nat, Pending>)
  {
    && (forall e :: e in eps <==> OfEp(e) in qs)
    && (forall n :: n in nts <==> OfNt(n) in qs)
    && (forall e :: e in eps ==> (eps[e].Free? <==> qs[OfEp(e)] == []))
    && (forall n :: n in nts ==> (nts[n].isSet ==> qs[OfNt(n)] == []) && (!nts[n].isSet ==> nts[n].bits == 0))
  }

  lemma {:induction false} NotWaiting(qs: Queues, t: Tid)
    requires !Waits(qs, t)
    ensures forall k, i :: k in qs && 0 <= i < |qs[k]| ==> qs[k][i] != t
  {
    forall k, i | k in qs && 0 <= i < |qs[k]|
      ensures qs[k][i] != t
    {
      assert qs[k][i] in qs[k];
    }
  }

  lemma {:induction false} WaitsIs(qs: Queues, k: QId, i: nat)
    requires k in qs && i < |qs[k]|
    ensures Waits(qs, qs[k][i])
  {
    assert qs[k][i] in qs[k];
  }

  // ---------------------------------------------------------------- the run queue

  /** A link leads to a thread other than the idle one. */
  predicate Leads(th: ThreadMap, next: Option<Tid>) { next.Some? ==> next.value in th && next.value != IDLE }

  predicate LinkLeads(th: ThreadMap, t: Tid) { t in th ==> Leads(th, th[t].next) }

  ghost predicate LinksLead(th: ThreadMap) { forall t {:trigger LinkLeads(th, t)} :: LinkLeads(th, t) }

  lemma {:induction false} LinksUpdate(th: ThreadMap, t: Tid, x: Thread)
    requires LinksLead(th) && t in th && Leads(th, x.next)
    ensures LinksLead(th[t := x])
  {
    var th' := th[t := x];
    forall u
      ensures LinkLeads(th', u)
    {
      assert LinkLeads(th, u);
    }
  }

  /** Changing a thread's fields other than its link changes no link. */
  lemma {:induction false} LinksSame(th: ThreadMap, t: Tid, x: Thread)
    requires LinksLead(th) && t in th && x.next == th[t].next
    ensures LinksLead(th[t := x])
  {
    assert LinkLeads(th, t);
    LinksUpdate(th, t, x);
  }

  /** The ends of the run queue exist together and are not the idle thread; the last thread waits
      nowhere, so that appending to the run queue changes no link of a waiting thread; and if the
      current thread is at one of the ends its link is set, so that it cannot block. */
  ghost predicate RunOk(th: ThreadMap, run: List, qs: Queues, cur: Tid)
  {
    && (run.head.Some? <==> run.last.Some?)
    && (run.head.Some? ==> run.head.value in th && run.head.value != IDLE)
    && (run.last.Some? ==> run.last.value in th && run.last.value != IDLE && !Waits(qs, run.last.value))
    && cur in th && (run.head == Some(cur) || run.last == Some(cur) ==> th[cur].next.Some?)
  }

  /** Appending t sets the link of the last thread, if there is one. */
  function LinkLast(th: ThreadMap, l: List, t: Tid): (r: ThreadMap)
    requires l.last.Some? ==> l.last.value in th
    ensures r.Keys == th.Keys
  {
    if l.last.Some? then th[l.last.value := th[l.last.value].(next := Some(t))] else th
  }

  function Pushed(l: List, t: Tid): (l': List) { List(if l.last.Some? then l.head else Some(t), Some(t)) }

  /** The list without its first thread: it goes on from wherever that thread's link leads. */
  function Popped(th: ThreadMap, l: List): (l': List)
    requires l.head.Some? ==> l.head.value in th
  {
    var next := if l.head.Some? then th[l.head.value].next else None;
    List(next, if next.None? then None else l.last)
  }

  /** Appending to a waiting queue: the link of its last thread is set. */
  function Link(th: ThreadMap, q: seq<Tid>, t: Tid): (r: ThreadMap)
    requires q != [] ==> q[|q| - 1] in th
    ensures r.Keys == th.Keys
  {
    if q == [] then th else th[q[|q| - 1] := th[q[|q| - 1]].(next := Some(t))]
  }

  // ---------------------------------------------------------------- steps

  /** Every thread and queue that is named exists. */
  ghost predicate Closed(a: State)
  {
    && a.current in a.th && IDLE in a.th
    && (a.run.head.Some? ==> a.run.head.value in a.th) && (a.run.last.Some? ==> a.run.last.value in a.th)
    && (forall k, i :: k in a.qs && 0 <= i < |a.qs[k]| ==> a.qs[k][i] in a.th)
    && (forall e :: e in a.eps ==> OfEp(e) in a.qs)
    && (forall n :: n in a.nts ==> OfNt(n) in a.qs)
  }

  /** What the step functions need in order to be defined. */
  ghost predicate Defined(a: State)
  {
    Closed(a) && forall e :: e in a.eps && !a.eps[e].Free? ==> a.qs[OfEp(e)] != []
  }

  /** The invariant that holds throughout, whatever the run queue has come to. */
  ghost predicate Core(a: State)
  {
    && Linked(a.th, a.qs) && AllBlocked(a.th, a.qs) && Objects(a.qs, a.eps, a.nts)
    && LinksLead(a.th) && RunOk(a.th, a.run, a.qs, a.current)
    && IDLE in a.th && a.th[IDLE].status == Idle
  }

  /** The state at every return to user mode: the current thread is the idle thread or has time left;
      scheduling is still requested only if nobody is queued to run. */
  ghost predicate AtUser(a: State)
  {
    && Core(a)
    && (a.current == IDLE || 1 <= a.th[a.current].slice <= TASK_QUANTUM)
    && (a.requested ==> a.run.head.None?)
  }

  /** The state when a trap has been handled but not yet scheduled: the current thread may have
      used up its slice, and then scheduling has been requested. */
  ghost predicate Mid(a: State)
  {
    Core(a) && (a.current != IDLE ==> a.th[a.current].slice <= TASK_QUANTUM && (a.th[a.current].slice == 0 ==> a.requested))
  }

  function SetThread(a: State, t: Tid, x: Thread): (r: State) { a.(th := a.th[t := x]) }

  function PushRun(a: State, t: Tid): (r: State)
    requires a.run.last.Some? ==> a.run.last.value in a.th
  {
    a.(th := LinkLast(a.th, a.run, t), run := Pushed(a.run, t))
  }

  /** Block the current thread on queue k and ask for scheduling. */
  function Block(a: State, k: QId): (r: Option<State>)
    requires a.current in a.th && k in a.qs && (a.qs[k] != [] ==> a.qs[k][|a.qs[k]| - 1] in a.th)
  {
    if a.th[a.current].next.Some? then None
    else
      var th := a.th[a.current := a.th[a.current].(status := Blocked)];
      Some(a.(th := Link(th, a.qs[k], a.current), qs := a.qs[k := a.qs[k] + [a.current]], requested := true))
  }

  /** Make t runnable and append it to the run queue. */
  function MakeRunnable(a: State, t: Tid): (r: State)
    requires t in a.th && (a.run.last.Some? ==> a.run.last.value in a.th)
  {
    PushRun(SetThread(a, t, a.th[t].(status := Runnable)), t)
  }

  /** Waking a popped thread checks that its link is clear. */
  function Wake(a: State, t: Tid): (r: Option<State>)
    requires t in a.th && (a.run.last.Some? ==> a.run.last.value in a.th)
  {
    if a.th[t].next.Some? then None else Some(MakeRunnable(a, t))
  }

  /** The message copied from one IPC buffer to another, when both threads have one. */
  function CopyMsg(a: State, from: Tid, to: Tid): (m: map<nat, seq<nat>>)
    requires from in a.th && to in a.th
  {
    if a.th[from].ipc.Some? && a.th[to].ipc.Some? && a.th[from].ipc.value in a.msgs
    then a.msgs[a.th[to].ipc.value := a.msgs[a.th[from].ipc.value]]
    else a.msgs
  }

  /** Remove the first thread of the queue of endpoint e. */
  function PopEp(a: State, e: nat): (r: State)
    requires OfEp(e) in a.qs && a.qs[OfEp(e)] != []
  {
    var q := a.qs[OfEp(e)][1..];
    a.(qs := a.qs[OfEp(e) := q], eps := if q == [] then a.eps[e := Free] else a.eps)
  }

  /** The message and badge of one thread handed to another; then the one that was waiting wakes. */
  function Handover(a: State, from: Tid, to: Tid, waiting: Tid): (r: Option<State>)
    requires from in a.th && to in a.th && waiting in a.th && (a.run.last.Some? ==> a.run.last.value in a.th)
  {
    Wake(SetThread(a.(msgs := CopyMsg(a, from, to)), to, a.th[to].(a1 := a.th[from].badge)), waiting)
  }

  function SendMsg(a: State, e: nat): (r: Option<State>)
    requires Defined(a) && e in a.eps
  {
    var s := a.current;
    if a.eps[e] == Receiving then
      var t := a.qs[OfEp(e)][0];
      Handover(PopEp(a, e), s, t, t)
    else
      Block(a.(eps := a.eps[e := Sending]), OfEp(e))
  }

  function DoSend(a: State, e: nat, badge: nat): (r: Option<State>)
    requires Defined(a) && e in a.eps
  {
    SendMsg(SetThread(a, a.current, a.th[a.current].(badge := badge)), e)
  }

  function DoRecv(a: State, e: nat): (r: Option<State>)
    requires Defined(a) && e in a.eps
  {
    var t := a.current;
    if a.eps[e] == Sending then
      var s := a.qs[OfEp(e)][0];
      Handover(PopEp(a, e), s, t, s)
    else
      Block(a.(eps := a.eps[e := Receiving]), OfEp(e))
  }

  /** The first waiter of notification n gets the value and wakes. */
  function WakeFirst(a: State, n: nat, val: nat): (r: Option<State>)
    requires Closed(a) && n in a.nts && a.qs[OfNt(n)] != []
  {
    var q := a.qs[OfNt(n)];
    var b := a.(qs := a.qs[OfNt(n) := q[1..]]);
    Wake(SetThread(b, q[0], b.th[q[0]].(a1 := val)), q[0])
  }

  function DoSignal(a: State, n: nat, val: nat): (r: Option<State>)
    requires Defined(a) && n in a.nts
  {
    if a.qs[OfNt(n)] != [] then
      WakeFirst(a, n, val)
    else
      Some(a.(nts := a.nts[n := Pending(Or(a.nts[n].bits, val), true)]))
  }

  function DoWait(a: State, n: nat): (r: Option<State>)
    requires Defined(a) && n in a.nts
  {
    var t := a.current;
    if a.nts[n].isSet then
      Some(SetThread(a, t, a.th[t].(a1 := a.nts[n].bits)).(nts := a.nts[n := Pending(0, false)]))
    else
      Block(a, OfNt(n))
  }

  function DoTick(a: State): (r: Option<State>)
    requires a.current in a.th
  {
    var x := a.th[a.current];
    if a.current == IDLE then Some(a)
    else if x.slice == 0 then None
    else Some(SetThread(a, a.current, x.(slice := x.slice - 1)).(requested := a.requested || x.slice == 1))
  }

  /** What an event names exists. */
  predicate Named(a: State, ev: Event)
  {
    match ev
    case Send(e, _) => e in a.eps
    case Recv(e) => e in a.eps
    case Signal(n, _) => n in a.nts
    case Wait(n) => n in a.nts
    case Resume(t) => t in a.th && t != IDLE
    case _ => true
  }

  /** System calls come from threads that wait nowhere, other than the idle one; a thread that is
      resumed waits nowhere, and one that resumes itself has its link set (`ResumeExactly`). */
  ghost predicate Enabled(a: State, ev: Event)
  {
    && Named(a, ev)
    && (ev.Tick? || (a.current != IDLE && !Waits(a.qs, a.current)))
    && (ev.Resume? ==> !Waits(a.qs, ev.t) && (ev.t == a.current ==> a.th[ev.t].next.Some?))
  }

  /** The system call proper. */
  function Call(a: State, ev: Event): (r: Option<State>)
    requires Defined(a) && Named(a, ev) && !ev.Tick?
  {
    match ev
    case Send(e, badge) => DoSend(a, e, badge)
    case Recv(e) => DoRecv(a, e)
    case Signal(n, val) => DoSignal(a, n, val)
    case Wait(n) => DoWait(a, n)
    case Resume(t) => Some(MakeRunnable(a, t))
    case Other(_, a1) => Some(SetThread(a, a.current, a.th[a.current].(a1 := a1)))
  }

  /** The result register of the caller: 0 for success; a1 is left alone. */
  function ResultOf(ev: Event): (a0: nat) { if ev.Other? then ev.a0 else 0 }

  function WriteBack(r: Option<State>, t: Tid, a0: nat): (b: Option<State>)
  {
    match r
    case None => None
    case Some(b) => if t in b.th then Some(SetThread(b, t, b.th[t].(a0 := a0))) else Some(b)
  }

  function Handle(a: State, ev: Event): (r: Option<State>)
    requires Defined(a) && Named(a, ev)
  {
    if ev.Tick? then DoTick(a) else WriteBack(Call(a, ev), a.current, ResultOf(ev))
  }

  /** The state after the first queued thread has been taken off the run queue and given a full slice. */
  function Taken(a: State): (b: State)
    requires a.run.head.Some? && a.run.head.value in a.th
  {
    var t := a.run.head.value;
    SetThread(a, t, a.th[t].(slice := TASK_QUANTUM)).(run := Popped(a.th, a.run))
  }

  /** Switch to the first thread of the run queue with a full slice, after which the current one,
      if runnable, is queued; with nobody queued the current thread goes on if it can, and
      scheduling stays requested. */
  function Schedule(a: State): (r: State)
    requires Closed(a)
  {
    var cur := a.current;
    if !a.requested then a
    else if a.run.head.Some? then
      var b := Taken(a);
      (if b.th[cur].status == Runnable then PushRun(b, cur) else b).(current := a.run.head.value, requested := false)
    else if a.th[cur].status == Runnable then
      SetThread(a, cur, a.th[cur].(slice := TASK_QUANTUM)).(run := List(None, None))
    else
      a.(current := IDLE, requested := false, run := List(None, None))
  }

  // ---------------------------------------------------------------- what a step keeps

  /** Changing a thread's fields other than its link changes no waiting queue. */
  lemma {:induction false} FieldKeeps(th: ThreadMap, qs: Queues, t: Tid, x: Thread)
    requires Linked(th, qs) && t in th && x.next == th[t].next
    ensures Linked(th[t := x], qs)
  {
  }

  /** Setting the link of a thread that waits nowhere changes no waiting queue. */
  lemma {:induction false} OutsiderKeeps(th: ThreadMap, qs: Queues, t: Tid, x: Thread)
    requires Linked(th, qs) && AllBlocked(th, qs) && t in th && !Waits(qs, t)
    ensures Linked(th[t := x], qs) && AllBlocked(th[t := x], qs)
  {
    NotWaiting(qs, t);
  }

  lemma {:induction false} LinkLastKeeps(th: ThreadMap, run: List, qs: Queues, t: Tid)
    requires Linked(th, qs) && AllBlocked(th, qs) && LinksLead(th) && t in th && t != IDLE
    requires run.last.Some? ==> run.last.value in th && !Waits(qs, run.last.value)
    ensures var th' := LinkLast(th, run, t); Linked(th', qs) && AllBlocked(th', qs) && LinksLead(th')
  {
    if run.last.Some? {
      var x := th[run.last.value].(next := Some(t));
      OutsiderKeeps(th, qs, run.last.value, x);
      LinksUpdate(th, run.last.value, x);
    }
  }

  lemma {:induction false} FieldCore(a: State, t: Tid, x: Thread)
    requires Core(a) && t in a.th && x.next == a.th[t].next && x.status == a.th[t].status
    ensures Core(SetThread(a, t, x))
  {
    FieldKeeps(a.th, a.qs, t, x);
    LinksSame(a.th, t, x);
  }

  /** Nothing but links and the thread t has changed. */
  ghost predicate OnlyThread(th: ThreadMap, th': ThreadMap, t: Tid)
  {
    th'.Keys == th.Keys && forall u :: u in th && u != t ==> th'[u] == th[u].(next := th'[u].next)
  }

  /** Making a thread runnable that waits nowhere; if it is the current one its link is set. */
  lemma {:induction false} RunnableKeeps(a: State, t: Tid)
    requires Linked(a.th, a.qs) && AllBlocked(a.th, a.qs) && LinksLead(a.th) && RunOk(a.th, a.run, a.qs, a.current)
    requires t in a.th && t != IDLE && !Waits(a.qs, t) && (t == a.current ==> a.th[t].next.Some?)
    ensures var b := MakeRunnable(a, t);
            Linked(b.th, b.qs) && AllBlocked(b.th, b.qs) && LinksLead(b.th) && RunOk(b.th, b.run, b.qs, b.current)
  {
    var th := a.th[t := a.th[t].(status := Runnable)];
    OutsiderKeeps(a.th, a.qs, t, th[t]);
    StatusKeeps(a.th, a.run, a.qs, a.current, t, th);
    LinkLastKeeps(th, a.run, a.qs, t);
    PushRunOk(th, a.run, a.qs, a.current, t);
  }

  lemma {:induction false} StatusKeeps(th: ThreadMap, run: List, qs: Queues, cur: Tid, t: Tid, th': ThreadMap)
    requires LinksLead(th) && RunOk(th, run, qs, cur) && t in th && t in th' && th' == th[t := th[t].(status := th'[t].status)]
    ensures LinksLead(th') && RunOk(th', run, qs, cur)
  {
    LinksSame(th, t, th'[t]);
  }

  lemma {:induction false} RunnableOnly(a: State, t: Tid)
    requires t in a.th && (a.run.last.Some? ==> a.run.last.value in a.th)
    ensures var b := MakeRunnable(a, t); OnlyThread(a.th, b.th, t) && b.th[t] == a.th[t].(status := Runnable, next := b.th[t].next)
  {
  }

  lemma {:induction false} PushRunOk(th: ThreadMap, run: List, qs: Queues, cur: Tid, t: Tid)
    requires RunOk(th, run, qs, cur) && t in th && t != IDLE && !Waits(qs, t) && (t == cur ==> th[t].next.Some?)
    ensures RunOk(LinkLast(th, run, t), Pushed(run, t), qs, cur)
  {
  }

  lemma {:induction false} PushUnique(qs: Queues, k: QId, t: Tid)
    requires Unique(qs) && k in qs && forall k, i :: k in qs && 0 <= i < |qs[k]| ==> qs[k][i] != t
    ensures Unique(qs[k := qs[k] + [t]])
  {
  }

  lemma {:induction false} PushLinks(th: ThreadMap, qs: Queues, k: QId, t: Tid)
    requires Linked(th, qs) && k in qs && t in th && th[t].next == None
    requires forall k, i :: k in qs && 0 <= i < |qs[k]| ==> qs[k][i] != t
    ensures var th', qs' := Link(th, qs[k], t), qs[k := qs[k] + [t]];
            && (forall k, i :: k in qs' && 0 <= i < |qs'[k]| - 1 ==> th'[qs'[k][i]].next == Some(qs'[k][i + 1]))
            && (forall k :: k in qs' && qs'[k] != [] ==> th'[qs'[k][|qs'[k]| - 1]].next == None)
  {
  }

  lemma {:induction false} PushKeeps(th: ThreadMap, qs: Queues, k: QId, t: Tid)
    requires Linked(th, qs) && k in qs && t in th && t != IDLE && !Waits(qs, t) && th[t].next == None
    ensures Linked(Link(th, qs[k], t), qs[k := qs[k] + [t]])
  {
    NotWaiting(qs, t);
    PushUnique(qs, k, t);
    PushLinks(th, qs, k, t);
  }

  lemma {:induction false} PushBlocked(th: ThreadMap, qs: Queues, k: QId, t: Tid)
    requires Linked(th, qs) && AllBlocked(th, qs) && k in qs && t in th && th[t].status == Blocked
    ensures AllBlocked(Link(th, qs[k], t), qs[k := qs[k] + [t]])
  {
  }

  lemma {:induction false} SameWaiters(qs: Queues, k: QId, t: Tid, u: Tid)
    requires k in qs && u != t
    ensures Waits(qs[k := qs[k] + [t]], u) <==> Waits(qs, u)
  {
    var qs' := qs[k := qs[k] + [t]];
    if Waits(qs, u) {
      var j :| j in qs && u in qs[j];
      assert u in qs'[j];
    }
    if Waits(qs', u) {
      var j :| j in qs' && u in qs'[j];
      assert u in qs[j];
    }
  }

  /** Blocking the current thread: its link is clear, so it is at no end of the run queue. */
  lemma {:induction false} BlockKeeps(a: State, k: QId, b: State)
    requires Linked(a.th, a.qs) && AllBlocked(a.th, a.qs) && LinksLead(a.th) && RunOk(a.th, a.run, a.qs, a.current)
    requires a.current != IDLE && !Waits(a.qs, a.current) && k in a.qs && Block(a, k) == Some(b)
    ensures Linked(b.th, b.qs) && AllBlocked(b.th, b.qs) && LinksLead(b.th) && RunOk(b.th, b.run, b.qs, b.current)
    ensures OnlyThread(a.th, b.th, a.current) && b.th[a.current] == a.th[a.current].(status := Blocked)
  {
    var t := a.current;
    var x := a.th[t].(status := Blocked);
    OutsiderKeeps(a.th, a.qs, t, x);
    PushKeeps(a.th[t := x], a.qs, k, t);
    PushBlocked(a.th[t := x], a.qs, k, t);
    NotWaiting(a.qs, t);
    LinksSame(a.th, t, x);
    LinkLeadsOn(a.th[t := x], a.qs[k], t);
    if a.run.last.Some? {
      SameWaiters(a.qs, k, t, a.run.last.value);
    }
  }

  lemma {:induction false} LinkLeadsOn(th: ThreadMap, q: seq<Tid>, t: Tid)
    requires LinksLead(th) && (q != [] ==> q[|q| - 1] in th) && t in th && t != IDLE
    ensures LinksLead(Link(th, q, t))
  {
    if q != [] { LinksUpdate(th, q[|q| - 1], th[q[|q| - 1]].(next := Some(t))); }
  }

  lemma {:induction false} PopKeeps(th: ThreadMap, qs: Queues, k: QId)
    requires Linked(th, qs) && AllBlocked(th, qs) && k in qs && qs[k] != []
    ensures Linked(th, qs[k := qs[k][1..]]) && AllBlocked(th, qs[k := qs[k][1..]])
    ensures !Waits(qs[k := qs[k][1..]], qs[k][0])
  {
    var qs' := qs[k := qs[k][1..]];
    forall k' | k' in qs'
      ensures qs[k][0] !in qs'[k']
    {
    }
  }

  lemma {:induction false} PopWaiters(qs: Queues, k: QId, u: Tid)
    requires k in qs && qs[k] != [] && !Waits(qs, u)
    ensures !Waits(qs[k := qs[k][1..]], u)
  {
    NotWaiting(qs, u);
  }

  /** The first thread of an endpoint or notification queue leaves it and is woken. */
  lemma {:induction false} PopWakeKeeps(a: State, k: QId, x: Thread, c: State, b: State)
    requires Linked(a.th, a.qs) && AllBlocked(a.th, a.qs) && LinksLead(a.th) && RunOk(a.th, a.run, a.qs, a.current)
    requires k in a.qs && a.qs[k] != [] && a.qs[k][0] != a.current && x.next == a.th[a.qs[k][0]].next
    requires c.th == a.th[a.qs[k][0] := x] && c.qs == a.qs[k := a.qs[k][1..]] && c.run == a.run && c.current == a.current
    requires Wake(c, a.qs[k][0]) == Some(b)
    ensures Linked(b.th, b.qs) && AllBlocked(b.th, b.qs) && LinksLead(b.th) && RunOk(b.th, b.run, b.qs, b.current)
    ensures OnlyThread(a.th, b.th, a.qs[k][0])
  {
    var t := a.qs[k][0];
    PopKeeps(a.th, a.qs, k);
    OutsiderKeeps(a.th, c.qs, t, x);
    LinksSame(a.th, t, x);
    if a.run.last.Some? {
      PopWaiters(a.qs, k, a.run.last.value);
    }
    RunnableKeeps(c, t);
    RunnableOnly(c, t);
  }

  lemma {:induction false} ObjectsPushEp(qs: Queues, eps: map<nat, Side>, nts: map<nat, Pending>, e: nat, t: Tid, side: Side)
    requires Objects(qs, eps, nts) && e in eps && !side.Free?
    ensures Objects(qs[OfEp(e) := qs[OfEp(e)] + [t]], eps[e := side], nts)
  {
  }

  lemma {:induction false} ObjectsPopEp(qs: Queues, eps: map<nat, Side>, nts: map<nat, Pending>, e: nat)
    requires Objects(qs, eps, nts) && e in eps && qs[OfEp(e)] != []
    ensures var q := qs[OfEp(e)][1..];
            Objects(qs[OfEp(e) := q], if q == [] then eps[e := Free] else eps, nts)
  {
  }

  lemma {:induction false} ObjectsNt(qs: Queues, eps: map<nat, Side>, nts: map<nat, Pending>, n: nat, q: seq<Tid>, p: Pending)
    requires Objects(qs, eps, nts) && n in nts
    requires (p.isSet ==> q == []) && (!p.isSet ==> p.bits == 0)
    ensures Objects(qs[OfNt(n) := q], eps, nts[n := p])
  {
  }

  /** What a call keeps: it may only have requested scheduling. */
  ghost predicate Called(a: State, b: State)
  {
    Mid(b) && b.current == a.current
  }

  /** After a waiting thread has been popped and woken, the caller goes on. */
  lemma {:induction false} WakeMid(a: State, k: QId, x: Thread, c: State, b: State)
    requires AtUser(a) && a.current != IDLE && !Waits(a.qs, a.current) && k in a.qs && a.qs[k] != []
    requires x.next == a.th[a.qs[k][0]].next
    requires c.th == a.th[a.qs[k][0] := x] && c.qs == a.qs[k := a.qs[k][1..]] && c.run == a.run
    requires c.current == a.current && Objects(c.qs, c.eps, c.nts) && Wake(c, a.qs[k][0]) == Some(b)
    ensures Called(a, b)
  {
    WaitsIs(a.qs, k, 0);
    PopWakeKeeps(a, k, x, c, b);
  }

  /** After the caller has blocked, scheduling is requested. */
  lemma {:induction false} BlockMid(a: State, k: QId, c: State, b: State)
    requires AtUser(a) && a.current != IDLE && !Waits(a.qs, a.current) && k in a.qs
    requires c.th == a.th && c.qs == a.qs && c.current == a.current && c.run == a.run
    requires Block(c, k) == Some(b) && Objects(b.qs, b.eps, b.nts)
    ensures Called(a, b)
  {
    BlockKeeps(c, k, b);
  }

  lemma {:induction false} FieldAtUser(a: State, x: Thread)
    requires AtUser(a) && a.current != IDLE
    requires x.next == a.th[a.current].next && x.status == a.th[a.current].status && x.slice == a.th[a.current].slice
    ensures AtUser(SetThread(a, a.current, x))
  {
    FieldCore(a, a.current, x);
  }

  lemma {:induction false} SendKeeps(a: State, e: nat, badge: nat, b: State)
    requires AtUser(a) && Enabled(a, Send(e, badge)) && DoSend(a, e, badge) == Some(b)
    ensures Called(a, b)
  {
    var s := a.current;
    var a1 := SetThread(a, s, a.th[s].(badge := badge));
    FieldAtUser(a, a.th[s].(badge := badge));
    if a.eps[e] == Receiving {
      var t := a.qs[OfEp(e)][0];
      WaitsIs(a.qs, OfEp(e), 0);
      var c := PopEp(a1, e).(msgs := CopyMsg(PopEp(a1, e), s, t));
      ObjectsPopEp(a.qs, a.eps, a.nts, e);
      WakeMid(a1, OfEp(e), a1.th[t].(a1 := badge), SetThread(c, t, c.th[t].(a1 := badge)), b);
    } else {
      ObjectsPushEp(a.qs, a.eps, a.nts, e, s, Sending);
      BlockMid(a1, OfEp(e), a1.(eps := a1.eps[e := Sending]), b);
    }
  }

  lemma {:induction false} RecvWakes(a: State, e: nat, b: State)
    requires AtUser(a) && Enabled(a, Recv(e)) && a.eps[e] == Sending && DoRecv(a, e) == Some(b)
    ensures Called(a, b)
  {
    var t, s := a.current, a.qs[OfEp(e)][0];
    WaitsIs(a.qs, OfEp(e), 0);
    var x := a.th[t].(a1 := a.th[s].badge);
    FieldAtUser(a, x);
    ObjectsPopEp(a.qs, a.eps, a.nts, e);
    var c := SetThread(PopEp(a, e).(msgs := CopyMsg(PopEp(a, e), s, t)), t, x);
    assert Wake(c, s) == Some(b);
    assert a.th[t := x][s := a.th[s]] == a.th[t := x];
    WakeMid(SetThread(a, t, x), OfEp(e), a.th[s], c, b);
  }

  lemma {:induction false} RecvKeeps(a: State, e: nat, b: State)
    requires AtUser(a) && Enabled(a, Recv(e)) && DoRecv(a, e) == Some(b)
    ensures Called(a, b)
  {
    if a.eps[e] == Sending {
      RecvWakes(a, e, b);
    } else {
      ObjectsPushEp(a.qs, a.eps, a.nts, e, a.current, Receiving);
      BlockMid(a, OfEp(e), a.(eps := a.eps[e := Receiving]), b);
    }
  }

  lemma {:induction false} SignalKeeps(a: State, n: nat, val: nat, b: State)
    requires AtUser(a) && Enabled(a, Signal(n, val)) && DoSignal(a, n, val) == Some(b)
    ensures Called(a, b)
  {
    var q := a.qs[OfNt(n)];
    if q != [] {
      var c := a.(qs := a.qs[OfNt(n) := q[1..]]);
      ObjectsNt(a.qs, a.eps, a.nts, n, q[1..], a.nts[n]);
      assert a.nts[n := a.nts[n]] == a.nts;
      WakeMid(a, OfNt(n), a.th[q[0]].(a1 := val), SetThread(c, q[0], c.th[q[0]].(a1 := val)), b);
    } else {
      ObjectsNt(a.qs, a.eps, a.nts, n, q, Pending(Or(a.nts[n].bits, val), true));
      assert a.qs[OfNt(n) := q] == a.qs;
    }
  }

  lemma {:induction false} WaitKeeps(a: State, n: nat, b: State)
    requires AtUser(a) && Enabled(a, Wait(n)) && DoWait(a, n) == Some(b)
    ensures Called(a, b)
  {
    if a.nts[n].isSet {
      WaitTakes(a, n, b);
    } else {
      ObjectsNt(a.qs, a.eps, a.nts, n, a.qs[OfNt(n)] + [a.current], a.nts[n]);
      assert a.nts[n := a.nts[n]] == a.nts;
      BlockMid(a, OfNt(n), a, b);
    }
  }

  lemma {:induction false} WaitTakes(a: State, n: nat, b: State)
    requires AtUser(a) && Enabled(a, Wait(n)) && a.nts[n].isSet && DoWait(a, n) == Some(b)
    ensures Called(a, b)
  {
    FieldAtUser(a, a.th[a.current].(a1 := a.nts[n].bits));
    ObjectsNt(a.qs, a.eps, a.nts, n, a.qs[OfNt(n)], Pending(0, false));
    assert a.qs[OfNt(n) := a.qs[OfNt(n)]] == a.qs;
  }

  lemma {:induction false} ResumeKeeps(a: State, t: Tid)
    requires AtUser(a) && Enabled(a, Resume(t))
    ensures Called(a, MakeRunnable(a, t))
  {
    RunnableKeeps(a, t);
    RunnableOnly(a, t);
  }

  lemma {:induction false} FieldMid(a: State, x: Thread)
    requires Mid(a) && a.current != IDLE
    requires x.next == a.th[a.current].next && x.status == a.th[a.current].status && x.slice == a.th[a.current].slice
    ensures Mid(SetThread(a, a.current, x))
  {
    FieldCore(a, a.current, x);
  }

  lemma {:induction false} CallKeeps(a: State, ev: Event, b: State)
    requires AtUser(a) && Enabled(a, ev) && !ev.Tick? && Call(a, ev) == Some(b)
    ensures Called(a, b)
  {
    match ev
    case Send(e, badge) => SendKeeps(a, e, badge, b);
    case Recv(e) => RecvKeeps(a, e, b);
    case Signal(n, val) => SignalKeeps(a, n, val, b);
    case Wait(n) => WaitKeeps(a, n, b);
    case Resume(t) => ResumeKeeps(a, t);
    case Other(_, a1) => FieldAtUser(a, a.th[a.current].(a1 := a1));
  }

  lemma {:induction false} TickKeeps(a: State)
    requires AtUser(a)
    ensures DoTick(a).Some? && Mid(DoTick(a).value)
  {
    if a.current != IDLE {
      FieldCore(a, a.current, a.th[a.current].(slice := a.th[a.current].slice - 1));
    }
  }

  /** Handling a trap from user mode leads to a state that can be scheduled; a tick never finds
      the slice of the current thread used up. */
  lemma {:induction false} HandleKeeps(a: State, ev: Event)
    requires AtUser(a) && Enabled(a, ev)
    ensures Handle(a, ev).Some? ==> Mid(Handle(a, ev).value)
    ensures ev.Tick? ==> Handle(a, ev).Some?
  {
    if ev.Tick? {
      TickKeeps(a);
    } else if Call(a, ev).Some? {
      var b := Call(a, ev).value;
      CallKeeps(a, ev, b);
      FieldMid(b, b.th[a.current].(a0 := ResultOf(ev)));
    }
  }

  /** Popping keeps the run queue in order for the thread that is popped. */
  lemma {:induction false} PopRunOk(th: ThreadMap, run: List, qs: Queues, cur: Tid)
    requires RunOk(th, run, qs, cur) && LinksLead(th) && run.head.Some?
    ensures RunOk(th, Popped(th, run), qs, run.head.value)
  {
    assert LinkLeads(th, run.head.value);
  }

  /** So does queueing the thread that ran: if the popped thread's link was clear, it is not that one. */
  lemma {:induction false} RequeueRunOk(th: ThreadMap, run: List, qs: Queues, cur: Tid)
    requires RunOk(th, run, qs, cur) && LinksLead(th) && run.head.Some? && cur != IDLE && !Waits(qs, cur)
    ensures var run' := Popped(th, run); RunOk(LinkLast(th, run', cur), Pushed(run', cur), qs, run.head.value)
  {
    assert LinkLeads(th, run.head.value);
  }

  lemma {:induction false} TakenKeeps(a: State)
    requires Core(a) && a.run.head.Some?
    ensures var b, next := Taken(a), a.run.head.value;
            && Linked(b.th, b.qs) && AllBlocked(b.th, b.qs) && LinksLead(b.th) && Popped(b.th, a.run) == b.run
            && RunOk(b.th, a.run, a.qs, a.current) && RunOk(b.th, b.run, b.qs, next)
  {
    var next, b := a.run.head.value, Taken(a);
    FieldKeeps(a.th, a.qs, next, b.th[next]);
    LinksSame(a.th, next, b.th[next]);
    PopRunOk(b.th, a.run, a.qs, a.current);
  }

  /** The thread that is switched to has a full slice, and the run queue is in order again. */
  lemma {:induction false} SwitchKeeps(a: State)
    requires Mid(a) && a.requested && a.run.head.Some?
    ensures AtUser(Schedule(a))
  {
    var cur, b := a.current, Taken(a);
    TakenKeeps(a);
    if b.th[cur].status == Runnable {
      RunnableWaitsNot(b.th, b.qs, cur);
      LinkLastKeeps(b.th, b.run, b.qs, cur);
      RequeueRunOk(b.th, a.run, b.qs, cur);
    }
  }

  lemma {:induction false} RunnableWaitsNot(th: ThreadMap, qs: Queues, t: Tid)
    requires AllBlocked(th, qs) && t in th && th[t].status == Runnable
    ensures !Waits(qs, t)
  {
  }

  lemma {:induction false} ScheduleKeeps(a: State)
    requires Mid(a)
    ensures AtUser(Schedule(a))
  {
    if a.requested {
      if a.run.head.Some? {
        SwitchKeeps(a);
      } else if a.th[a.current].status == Runnable {
        FieldCore(a, a.current, a.th[a.current].(slice := TASK_QUANTUM));
      }
    }
  }

  // ---------------------------------------------------------------- runs

  /** One trap: handle the event, then schedule. */
  function Trap(a: State, ev: Event): (r: Option<State>)
    requires AtUser(a) && Enabled(a, ev)
    ensures r.Some? ==> AtUser(r.value)
    ensures ev.Tick? ==> r.Some?
  {
    HandleKeeps(a, ev);
    match Handle(a, ev)
    case None => None
    case Some(b) => ScheduleKeeps(b); Some(Schedule(b))
  }

  /** A trap from any state, whether or not it is one that the kernel should be in. */
  ghost function RawTrap(a: State, ev: Event): (r: Option<State>)
    requires Defined(a) && Named(a, ev)
  {
    match Handle(a, ev)
    case None => None
    case Some(b) => if Closed(b) then Some(Schedule(b)) else None
  }

  /** Resuming a thread, the one that runs included, leads back to a state fit for user mode exactly if
      the thread waits nowhere and, if it is the one that runs, its link is set. */
  lemma {:induction false} ResumeExactly(a: State, t: Tid)
    requires AtUser(a) && a.current != IDLE && !Waits(a.qs, a.current) && t in a.th && t != IDLE
    ensures Defined(a) && RawTrap(a, Resume(t)).Some?
    ensures AtUser(RawTrap(a, Resume(t)).value) <==> Enabled(a, Resume(t))
  {
    var c := Handle(a, Resume(t)).value;
    if Enabled(a, Resume(t)) {
      HandleKeeps(a, Resume(t));
      ScheduleKeeps(c);
    } else if Waits(a.qs, t) {
      ResumedWaits(a, t, c);
    } else {
      ResumedSelf(a, c);
    }
  }

  /** Scheduling blocks and wakes nobody. */
  lemma {:induction false} ScheduleStatus(c: State, t: Tid)
    requires Closed(c) && t in c.th
    ensures Schedule(c).qs == c.qs && t in Schedule(c).th && Schedule(c).th[t].status == c.th[t].status
  {
    if c.requested && c.run.head.Some? {
      var b := Taken(c);
      assert t in b.th && b.th[t].status == c.th[t].status && b.qs == c.qs;
      PushStatus(b, c.current, t);
    }
  }

  lemma {:induction false} PushStatus(b: State, u: Tid, t: Tid)
    requires t in b.th && (b.run.last.Some? ==> b.run.last.value in b.th)
    ensures PushRun(b, u).qs == b.qs && t in PushRun(b, u).th && PushRun(b, u).th[t].status == b.th[t].status
  {
  }

  /** A waiting thread that is resumed is no longer blocked. */
  lemma {:induction false} ResumedWaits(a: State, t: Tid, c: State)
    requires Defined(a) && t in a.th && t != IDLE && Waits(a.qs, t) && Handle(a, Resume(t)) == Some(c) && Closed(c)
    ensures !AtUser(Schedule(c))
  {
    var k :| k in a.qs && t in a.qs[k];
    var i: nat :| i < |a.qs[k]| && a.qs[k][i] == t;
    ScheduleStatus(c, t);
    assert Schedule(c).qs[k][i] == t;
  }

  /** A thread that resumes itself with a clear link is at the end of the run queue, with a clear link. */
  lemma {:induction false} ResumedSelf(a: State, c: State)
    requires AtUser(a) && a.current != IDLE && a.th[a.current].next == None && Handle(a, Resume(a.current)) == Some(c) && Closed(c)
    ensures var b := Schedule(c); b.current == a.current && b.run.last == Some(a.current) && b.th[a.current].next == None && !AtUser(b)
  {
  }

  /** The events can follow each other from a without stopping the kernel, with callers and resumed
      threads that wait nowhere. */
  ghost predicate Runs(a: State, evs: seq<Event>)
    requires AtUser(a)
    decreases |evs|
  {
    evs == [] || (Enabled(a, evs[0]) && Trap(a, evs[0]).Some? && Runs(Trap(a, evs[0]).value, evs[1..]))
  }

  /** The state that a run ends in. */
  ghost function Last(a: State, evs: seq<Event>): (b: State)
    requires AtUser(a) && Runs(a, evs)
    decreases |evs|
  {
    if evs == [] then a else Last(Trap(a, evs[0]).value, evs[1..])
  }

  /** Over every run: at each return to user mode the current thread is idle or has 1 to 20 ticks
      left; every waiting thread is blocked and waits in one place only, in a well-formed list; an
      endpoint is free iff nobody waits there and a notification with waiters holds no signal;
      the run queue ends in a thread that waits nowhere, and scheduling is still requested only if
      nobody is queued. */
  lemma {:induction false} RunKeepsInvariant(a: State, evs: seq<Event>)
    requires AtUser(a) && Runs(a, evs)
    ensures AtUser(Last(a, evs))
    decreases |evs|
  {
    if evs != [] {
      RunKeepsInvariant(Trap(a, evs[0]).value, evs[1..]);
    }
  }
}
