/**
 The run queue as a sequence.  Appending to the list is always right; popping is right for
 two or more threads, and for one whose link is clear.  As long as the scheduler pops exactly,
 the run queue holds distinct runnable threads and the machine of `Threads` is fair:
 timer preemption shares the processor round-robin.
 */
module RunQueue {
  import opened Kinds
  import opened Threads

  // ---------------------------------------------------------------- lists and sequences

  /** The two ends of a list that holds q. */
  predicate Shows(l: List, q: seq<Tid>)
  {
    l == if q == [] then List(None, None) else List(Some(q[0]), Some(q[|q| - 1]))
  }

  /** Each thread of q is linked to the next. */
  ghost predicate Chained(th: ThreadMap, q: seq<Tid>)
  {
    (forall i :: 0 <= i < |q| ==> q[i] in th) && (forall i :: 0 <= i < |q| - 1 ==> th[q[i]].next == Some(q[i + 1]))
  }

  ghost predicate Distinct(q: seq<Tid>) { forall i, j :: 0 <= i < j < |q| ==> q[i] != q[j] }

  /** Pushing a thread that is not in the list appends it, whatever its own link is. */
  lemma {:induction false} PushShows(th: ThreadMap, l: List, q: seq<Tid>, t: Tid)
    requires Shows(l, q) && Chained(th, q) && Distinct(q) && t in th && t !in q
    ensures Shows(Pushed(l, t), q + [t]) && LinkLast(th, l, t) == Link(th, q, t)
    ensures Chained(LinkLast(th, l, t), q + [t]) && Distinct(q + [t])
  {
  }

  /** What popping leaves of a list that held q: the rest of q, exactly if there is a second thread or
      the first has no link; otherwise a list that goes on from that link. */
  ghost predicate PopLeaves(th: ThreadMap, q: seq<Tid>, l: List)
    requires q != [] && q[0] in th
  {
    && (Shows(l, q[1..]) <==> |q| >= 2 || th[q[0]].next == None)
    && (!Shows(l, q[1..]) ==> l == List(th[q[0]].next, Some(q[0])))
  }

  lemma {:induction false} PopShows(th: ThreadMap, l: List, q: seq<Tid>)
    requires Shows(l, q) && Chained(th, q) && q != []
    ensures l.head == Some(q[0]) && PopLeaves(th, q, Popped(th, l)) && Chained(th, q[1..])
  {
  }

  // ---------------------------------------------------------------- a run queue in order

  /** The run queue holds q: distinct runnable threads, none of them current. */
  ghost predicate Lined(th: ThreadMap, run: List, q: seq<Tid>, cur: Tid)
  {
    && Shows(run, q) && Chained(th, q) && Distinct(q)
    && forall i :: 0 <= i < |q| ==> q[i] in th && th[q[i]].status == Runnable && q[i] != IDLE && q[i] != cur
  }

  lemma {:induction false} LinedField(th: ThreadMap, run: List, q: seq<Tid>, cur: Tid, t: Tid, x: Thread)
    requires Lined(th, run, q, cur) && t in th && ((x.next == th[t].next && x.status == th[t].status) || t !in q)
    ensures Lined(th[t := x], run, q, cur)
  {
    forall i | 0 <= i < |q|
      ensures q[i] in q
    {
    }
  }

  lemma {:induction false} LinedPush(th: ThreadMap, run: List, q: seq<Tid>, cur: Tid, t: Tid)
    requires Lined(th, run, q, cur) && t in th && t !in q && th[t].status == Runnable && t != IDLE && t != cur
    ensures Lined(LinkLast(th, run, t), Pushed(run, t), q + [t], cur)
  {
    PushShows(th, run, q, t);
  }

  /** When the list holds what it should after scheduling.  Popping its only thread leaves the list
      going on from that thread's old link; this is right if there is none, or if it leads to the
      current thread and that is queued now. */
  predicate Exactly(th: ThreadMap, q: seq<Tid>, cur: Tid)
    requires cur in th
  {
    |q| == 1 && q[0] in th ==> th[q[0]].next == None || (th[q[0]].next == Some(cur) && th[cur].status == Runnable)
  }

  function QueueAfter(th: ThreadMap, q: seq<Tid>, cur: Tid): (q': seq<Tid>)
    requires q != [] && cur in th
  {
    if th[cur].status == Runnable then q[1..] + [cur] else q[1..]
  }

  /** The list after popping and, if the thread that ran is runnable, queueing it. */
  function ListAfter(th: ThreadMap, run: List, cur: Tid): (l: List)
    requires cur in th && run.head.Some? && run.head.value in th
  {
    if th[cur].status == Runnable then Pushed(Popped(th, run), cur) else Popped(th, run)
  }

  function ThreadsAfter(th: ThreadMap, run: List, cur: Tid): (th': ThreadMap)
    requires cur in th && run.head.Some? && run.head.value in th && (run.last.Some? ==> run.last.value in th)
  {
    if th[cur].status == Runnable then LinkLast(th, Popped(th, run), cur) else th
  }

  lemma {:induction false} ListIsRight(th: ThreadMap, run: List, q: seq<Tid>, cur: Tid)
    requires Shows(run, q) && Chained(th, q) && q != [] && cur in th
    ensures Shows(ListAfter(th, run, cur), QueueAfter(th, q, cur)) <==> Exactly(th, q, cur)
    ensures !Exactly(th, q, cur) ==> ListAfter(th, run, cur).head == th[q[0]].next
  {
    PopShows(th, run, q);
  }

  lemma {:induction false} TailLined(th: ThreadMap, run: List, q: seq<Tid>, cur: Tid)
    requires Lined(th, run, q, cur) && q != [] && Shows(Popped(th, run), q[1..])
    ensures Lined(th, Popped(th, run), q[1..], q[0])
  {
  }

  /** In the exact case the list is in order for the thread that was popped. */
  lemma {:induction false} SwitchLined(th: ThreadMap, run: List, q: seq<Tid>, cur: Tid)
    requires Lined(th, run, q, cur) && q != [] && cur in th && (th[cur].status == Runnable ==> cur != IDLE) && Exactly(th, q, cur)
    ensures Lined(ThreadsAfter(th, run, cur), ListAfter(th, run, cur), QueueAfter(th, q, cur), q[0])
  {
    PopShows(th, run, q);
    if |q| == 1 && th[q[0]].next.Some? {
      assert ThreadsAfter(th, run, cur) == th;
    } else {
      TailLined(th, run, q, cur);
      if th[cur].status == Runnable {
        LinedPush(th, Popped(th, run), q[1..], q[0], cur);
      }
    }
  }

  // ---------------------------------------------------------------- over traps

  /** What scheduling makes of a run queue that holds q. */
  function Scheduled(a: State, q: seq<Tid>): (q': seq<Tid>)
    requires a.current in a.th
  {
    if !a.requested || q == [] then q else QueueAfter(a.th, q, a.current)
  }

  predicate ScheduleExact(a: State, q: seq<Tid>)
    requires a.current in a.th
  {
    a.requested ==> Exactly(a.th, q, a.current)
  }

  /** The state in terms of the lists above. */
  lemma {:induction false} ScheduleIs(a: State)
    requires Closed(a) && a.requested && a.run.head.Some?
    ensures var t := a.run.head.value;
            var th := a.th[t := a.th[t].(slice := TASK_QUANTUM)];
            && Schedule(a).th == ThreadsAfter(th, a.run, a.current) && Schedule(a).run == ListAfter(th, a.run, a.current)
            && Schedule(a).current == t
  {
  }

  /** Scheduling gives the right run queue exactly if `ScheduleExact`; otherwise the thread that runs is
      still the right one, but the run queue goes on from its old link. */
  lemma {:induction false} ScheduleShows(a: State, q: seq<Tid>)
    requires Closed(a) && Lined(a.th, a.run, q, a.current)
    ensures Shows(Schedule(a).run, Scheduled(a, q)) <==> ScheduleExact(a, q)
    ensures a.requested && q != [] ==> Schedule(a).current == q[0]
    ensures !ScheduleExact(a, q) ==> Schedule(a).run.head == a.th[q[0]].next
  {
    if a.requested && q != [] {
      var th := a.th[q[0] := a.th[q[0]].(slice := TASK_QUANTUM)];
      ScheduleIs(a);
      LinedField(a.th, a.run, q, a.current, q[0], th[q[0]]);
      ListIsRight(th, a.run, q, a.current);
    }
  }

  /** The run queue is in order at the end of a trap, and the current thread may run. */
  ghost predicate Ordered(a: State, q: seq<Tid>)
  {
    && a.current in a.th && Lined(a.th, a.run, q, a.current)
    && (a.current == IDLE || a.th[a.current].status == Runnable)
  }

  lemma {:induction false} ScheduleOrdered(a: State, q: seq<Tid>)
    requires Closed(a) && Lined(a.th, a.run, q, a.current) && ScheduleExact(a, q) && a.th[IDLE].status == Idle
    requires a.current == IDLE || a.th[a.current].status == Runnable || a.requested
    ensures Ordered(Schedule(a), Scheduled(a, q))
  {
    if a.requested {
      if q != [] {
        var th := a.th[q[0] := a.th[q[0]].(slice := TASK_QUANTUM)];
        ScheduleIs(a);
        LinedField(a.th, a.run, q, a.current, q[0], th[q[0]]);
        SwitchLined(th, a.run, q, a.current);
      } else if a.th[a.current].status == Runnable {
        LinedField(a.th, a.run, q, a.current, a.current, a.th[a.current].(slice := TASK_QUANTUM));
      }
    }
  }

  /** What a call makes of the run queue: a woken or resumed thread joins it. */
  function Joined(a: State, ev: Event, q: seq<Tid>): (q': seq<Tid>)
    requires Defined(a) && Enabled(a, ev)
  {
    match ev
    case Send(e, _) => if a.eps[e] == Receiving then q + [a.qs[OfEp(e)][0]] else q
    case Recv(e) => if a.eps[e] == Sending then q + [a.qs[OfEp(e)][0]] else q
    case Signal(n, _) => if a.qs[OfNt(n)] != [] then q + [a.qs[OfNt(n)][0]] else q
    case Resume(t) => q + [t]
    case _ => q
  }

  /** A thread that is resumed is neither queued nor running. */
  ghost predicate Fresh(a: State, ev: Event, q: seq<Tid>) { ev.Resume? ==> ev.t !in q && ev.t != a.current }

  lemma {:induction false} WaitingNotQueued(th: ThreadMap, qs: Queues, run: List, q: seq<Tid>, cur: Tid, k: QId, i: nat)
    requires AllBlocked(th, qs) && Lined(th, run, q, cur) && k in qs && i < |qs[k]| && qs[k][i] in th
    ensures qs[k][i] !in q
  {
  }

  lemma {:induction false} BlockLined(a: State, k: QId, b: State, q: seq<Tid>)
    requires AllBlocked(a.th, a.qs) && Lined(a.th, a.run, q, a.current) && k in a.qs && a.current in a.th
    requires (a.qs[k] != [] ==> a.qs[k][|a.qs[k]| - 1] in a.th) && Block(a, k) == Some(b)
    ensures Lined(b.th, b.run, q, b.current) && b.current == a.current && b.requested
  {
    var x := a.th[a.current].(status := Blocked);
    LinedField(a.th, a.run, q, a.current, a.current, x);
    if a.qs[k] != [] {
      var th, u := a.th[a.current := x], a.qs[k][|a.qs[k]| - 1];
      WaitingNotQueued(a.th, a.qs, a.run, q, a.current, k, |a.qs[k]| - 1);
      LinedField(th, a.run, q, a.current, u, th[u].(next := Some(a.current)));
    }
  }

  lemma {:induction false} RunnableLined(a: State, t: Tid, q: seq<Tid>)
    requires Lined(a.th, a.run, q, a.current) && t in a.th && t !in q && t != IDLE && t != a.current
    requires a.run.last.Some? ==> a.run.last.value in a.th
    ensures var b := MakeRunnable(a, t);
            && Lined(b.th, b.run, q + [t], b.current) && b.current == a.current
            && (a.current in a.th ==> b.th[a.current].status == a.th[a.current].status)
  {
    var x := a.th[t].(status := Runnable);
    LinedField(a.th, a.run, q, a.current, t, x);
    LinedPush(a.th[t := x], a.run, q, a.current, t);
  }

  /** After a call the run queue holds `Joined`, and a caller that may not go on has asked for
      scheduling. */
  ghost predicate Handled(a: State, b: State, q: seq<Tid>)
  {
    && a.current in a.th && b.current == a.current && b.current in b.th && Lined(b.th, b.run, q, b.current)
    && (b.requested || b.th[b.current].status == a.th[a.current].status)
  }

  lemma {:induction false} HandoverLined(p: State, from: Tid, to: Tid, waiting: Tid, b: State, q: seq<Tid>)
    requires Lined(p.th, p.run, q, p.current) && p.current in p.th && from in p.th && to in p.th && waiting in p.th
    requires waiting !in q && waiting != IDLE && waiting != p.current && (p.run.last.Some? ==> p.run.last.value in p.th)
    requires Handover(p, from, to, waiting) == Some(b)
    ensures Handled(p, b, q + [waiting])
  {
    var x := p.th[to].(a1 := p.th[from].badge);
    LinedField(p.th, p.run, q, p.current, to, x);
    RunnableLined(SetThread(p.(msgs := CopyMsg(p, from, to)), to, x), waiting, q);
  }

  /** The first waiter of a queue is not in the run queue, not idle and not the caller. */
  lemma {:induction false} FirstWaiter(a: State, k: QId, q: seq<Tid>)
    requires Core(a) && Lined(a.th, a.run, q, a.current) && !Waits(a.qs, a.current) && k in a.qs && a.qs[k] != []
    ensures var t := a.qs[k][0]; t in a.th && t !in q && t != IDLE && t != a.current
  {
    WaitingNotQueued(a.th, a.qs, a.run, q, a.current, k, 0);
    WaitsIs(a.qs, k, 0);
  }

  lemma {:induction false} SendLined(a: State, e: nat, badge: nat, b: State, q: seq<Tid>)
    requires Core(a) && Ordered(a, q) && Enabled(a, Send(e, badge)) && DoSend(a, e, badge) == Some(b)
    ensures Handled(a, b, Joined(a, Send(e, badge), q))
  {
    var s := a.current;
    var x := a.th[s].(badge := badge);
    LinedField(a.th, a.run, q, s, s, x);
    if a.eps[e] == Receiving {
      FirstWaiter(a, OfEp(e), q);
      HandoverLined(PopEp(SetThread(a, s, x), e), s, a.qs[OfEp(e)][0], a.qs[OfEp(e)][0], b, q);
    } else {
      NotWaiting(a.qs, s);
      BlockLined(SetThread(a, s, x).(eps := a.eps[e := Sending]), OfEp(e), b, q);
    }
  }

  lemma {:induction false} RecvLined(a: State, e: nat, b: State, q: seq<Tid>)
    requires Core(a) && Ordered(a, q) && Enabled(a, Recv(e)) && DoRecv(a, e) == Some(b)
    ensures Handled(a, b, Joined(a, Recv(e), q))
  {
    if a.eps[e] == Sending {
      FirstWaiter(a, OfEp(e), q);
      HandoverLined(PopEp(a, e), a.qs[OfEp(e)][0], a.current, a.qs[OfEp(e)][0], b, q);
    } else {
      BlockLined(a.(eps := a.eps[e := Receiving]), OfEp(e), b, q);
    }
  }

  lemma {:induction false} SignalLined(a: State, n: nat, val: nat, b: State, q: seq<Tid>)
    requires Core(a) && Ordered(a, q) && Enabled(a, Signal(n, val)) && DoSignal(a, n, val) == Some(b)
    ensures Handled(a, b, Joined(a, Signal(n, val), q))
  {
    if a.qs[OfNt(n)] != [] {
      var t := a.qs[OfNt(n)][0];
      FirstWaiter(a, OfNt(n), q);
      LinedField(a.th, a.run, q, a.current, t, a.th[t].(a1 := val));
      RunnableLined(SetThread(a.(qs := a.qs[OfNt(n) := a.qs[OfNt(n)][1..]]), t, a.th[t].(a1 := val)), t, q);
    }
  }

  lemma {:induction false} WaitLined(a: State, n: nat, b: State, q: seq<Tid>)
    requires Core(a) && Ordered(a, q) && Enabled(a, Wait(n)) && DoWait(a, n) == Some(b)
    ensures Handled(a, b, q)
  {
    if a.nts[n].isSet {
      LinedField(a.th, a.run, q, a.current, a.current, a.th[a.current].(a1 := a.nts[n].bits));
    } else {
      BlockLined(a, OfNt(n), b, q);
    }
  }

  lemma {:induction false} CallLined(a: State, ev: Event, b: State, q: seq<Tid>)
    requires Core(a) && Ordered(a, q) && Enabled(a, ev) && !ev.Tick? && Call(a, ev) == Some(b) && Fresh(a, ev, q)
    ensures Handled(a, b, Joined(a, ev, q))
  {
    match ev
    case Send(e, badge) => SendLined(a, e, badge, b, q);
    case Recv(e) => RecvLined(a, e, b, q);
    case Signal(n, val) => SignalLined(a, n, val, b, q);
    case Wait(n) => WaitLined(a, n, b, q);
    case Resume(t) => RunnableLined(a, t, q);
    case Other(_, v) => LinedField(a.th, a.run, q, a.current, a.current, a.th[a.current].(a1 := v));
  }

  lemma {:induction false} HandleLined(a: State, ev: Event, b: State, q: seq<Tid>)
    requires Core(a) && Ordered(a, q) && Enabled(a, ev) && Handle(a, ev) == Some(b) && Fresh(a, ev, q)
    ensures Handled(a, b, Joined(a, ev, q))
  {
    if ev.Tick? {
      if a.current != IDLE {
        LinedField(a.th, a.run, q, a.current, a.current, a.th[a.current].(slice := a.th[a.current].slice - 1));
      }
    } else {
      var c := Call(a, ev).value;
      CallLined(a, ev, c, q);
      LinedField(c.th, c.run, Joined(a, ev, q), c.current, c.current, c.th[c.current].(a0 := ResultOf(ev)));
    }
  }

  /** No thread is queued again in this trap, and the run queue is popped exactly at its end. */
  ghost predicate Exact(a: State, ev: Event, q: seq<Tid>)
    requires AtUser(a) && Enabled(a, ev)
  {
    HandleKeeps(a, ev);
    Fresh(a, ev, q) &&
    match Handle(a, ev)
    case None => true
    case Some(b) => ScheduleExact(b, Joined(a, ev, q))
  }

  ghost function NextQueue(a: State, ev: Event, q: seq<Tid>): (q': seq<Tid>)
    requires AtUser(a) && Enabled(a, ev) && Trap(a, ev).Some?
  {
    HandleKeeps(a, ev);
    Scheduled(Handle(a, ev).value, Joined(a, ev, q))
  }

  /** A trap from an ordered state: all is in order again exactly if no thread was queued again and the
      run queue was popped exactly; if only the pop was not exact, the ends of the list are wrong. */
  lemma {:induction false} TrapOrdered(a: State, ev: Event, b: State, q: seq<Tid>)
    requires AtUser(a) && Ordered(a, q) && Enabled(a, ev) && Trap(a, ev) == Some(b)
    ensures Ordered(b, NextQueue(a, ev, q)) <==> Exact(a, ev, q)
    ensures Fresh(a, ev, q) ==> (Shows(b.run, NextQueue(a, ev, q)) <==> Exact(a, ev, q))
  {
    var c := Handle(a, ev).value;
    HandleKeeps(a, ev);
    if Fresh(a, ev, q) {
      HandleLined(a, ev, c, q);
      SwitchExactly(c, Joined(a, ev, q));
    } else {
      ResumedAgain(a, ev.t, c, q);
    }
  }

  lemma {:induction false} SwitchExactly(c: State, q: seq<Tid>)
    requires Closed(c) && Lined(c.th, c.run, q, c.current) && c.th[IDLE].status == Idle
    requires c.current == IDLE || c.th[c.current].status == Runnable || c.requested
    ensures Shows(Schedule(c).run, Scheduled(c, q)) <==> ScheduleExact(c, q)
    ensures Ordered(Schedule(c), Scheduled(c, q)) <==> ScheduleExact(c, q)
  {
    ScheduleShows(c, q);
    if ScheduleExact(c, q) {
      ScheduleOrdered(c, q);
    }
  }

  lemma {:induction false} ResumedAgain(a: State, t: Tid, c: State, q: seq<Tid>)
    requires AtUser(a) && Ordered(a, q) && Enabled(a, Resume(t)) && Handle(a, Resume(t)) == Some(c) && (t in q || t == a.current)
    requires Closed(c)
    ensures !Ordered(Schedule(c), Scheduled(c, q + [t]))
  {
    var q' := q + [t];
    assert q'[|q|] == t;
    if a.requested {
      assert q == [] && c.run.head == Some(t);
      assert Scheduled(c, q') == [t];
    } else if t in q {
      var i: nat :| i < |q| && q[i] == t;
      assert q'[i] == q'[|q|];
    }
  }

  /** Resuming appends exactly a thread that is neither queued nor running. */
  lemma {:induction false} ResumeAppends(a: State, t: Tid, q: seq<Tid>)
    requires Lined(a.th, a.run, q, a.current) && t in a.th && t != IDLE && (a.run.last.Some? ==> a.run.last.value in a.th)
    ensures var b := MakeRunnable(a, t); Lined(b.th, b.run, q + [t], b.current) <==> t !in q && t != a.current
  {
    var q' := q + [t];
    assert q'[|q|] == t;
    if t !in q && t != a.current {
      RunnableLined(a, t, q);
    } else if t in q {
      var i: nat :| i < |q| && q[i] == t;
      assert q'[i] == q'[|q|];
    }
  }

  /** The list after n pops. */
  function Pops(th: ThreadMap, l: List, n: nat): (r: List)
    decreases n
  {
    if n == 0 || l.head.None? || l.head.value !in th then l else Pops(th, Popped(th, l), n - 1)
  }

  /** A thread that is resumed while it is queued makes the run queue a circle: however often it is
      popped, there is a thread left, and always one of those that were queued. */
  lemma {:induction false} QueuedTwice(a: State, q: seq<Tid>, j: nat, n: nat)
    requires Lined(a.th, a.run, q, a.current) && j < |q|
    ensures var b := MakeRunnable(a, q[j]);
            && b.run == List(Some(q[0]), Some(q[j])) && b.th[q[|q| - 1]].next == Some(q[j])
            && Pops(b.th, b.run, n).head.Some? && Pops(b.th, b.run, n).head.value in q
  {
    var b := MakeRunnable(a, q[j]);
    forall i: nat | i < |q|
      ensures LeadsRound(b.th, q, j, i)
    {
    }
    Around(b.th, b.run, q, j, 0, n);
  }

  /** The i-th thread leads to the next, and the last one back to the j-th. */
  predicate LeadsRound(th: ThreadMap, q: seq<Tid>, j: nat, i: nat)
    requires j < |q| && i < |q|
  {
    q[i] in th && th[q[i]].next == Some(if i + 1 < |q| then q[i + 1] else q[j])
  }

  lemma {:induction false} Around(th: ThreadMap, l: List, q: seq<Tid>, j: nat, i: nat, n: nat)
    requires j < |q| && i < |q| && l.head == Some(q[i])
    requires forall i: nat :: i < |q| ==> LeadsRound(th, q, j, i)
    ensures Pops(th, l, n).head.Some? && Pops(th, l, n).head.value in q
    decreases n
  {
    if n > 0 {
      assert LeadsRound(th, q, j, i);
      Around(th, Popped(th, l), q, j, if i + 1 < |q| then i + 1 else j, n - 1);
    }
  }

  /** A run in which the run queue is always popped exactly, and resumed threads are neither queued nor
      running. */
  ghost predicate RunsExactly(a: State, evs: seq<Event>, q: seq<Tid>)
    requires AtUser(a)
    decreases |evs|
  {
    evs == [] ||
    (&& Enabled(a, evs[0]) && Exact(a, evs[0], q) && Trap(a, evs[0]).Some?
     && RunsExactly(Trap(a, evs[0]).value, evs[1..], NextQueue(a, evs[0], q)))
  }

  ghost function LastQueue(a: State, evs: seq<Event>, q: seq<Tid>): (q': seq<Tid>)
    requires AtUser(a) && RunsExactly(a, evs, q)
    decreases |evs|
  {
    if evs == [] then q else LastQueue(Trap(a, evs[0]).value, evs[1..], NextQueue(a, evs[0], q))
  }

  /** Over every such run the run queue holds distinct runnable threads, in the order in which they
      became so, and the current thread is idle or runnable and not among them. */
  lemma {:induction false} RunQueueInOrder(a: State, evs: seq<Event>, q: seq<Tid>)
    requires AtUser(a) && Ordered(a, q) && RunsExactly(a, evs, q)
    ensures Runs(a, evs) && Ordered(Last(a, evs), LastQueue(a, evs, q))
    decreases |evs|
  {
    if evs != [] {
      TrapOrdered(a, evs[0], Trap(a, evs[0]).value, q);
      RunQueueInOrder(Trap(a, evs[0]).value, evs[1..], NextQueue(a, evs[0], q));
    }
  }

  // ---------------------------------------------------------------- nobody else queued

  lemma {:induction false} RequestStays(a: State, ev: Event, c: State)
    requires Defined(a) && Enabled(a, ev) && Handle(a, ev) == Some(c) && a.requested
    ensures c.requested
  {
    if !ev.Tick? {
      CallRequestStays(a, ev, Call(a, ev).value);
    }
  }

  lemma {:induction false} CallRequestStays(a: State, ev: Event, b: State)
    requires Defined(a) && Enabled(a, ev) && !ev.Tick? && Call(a, ev) == Some(b) && a.requested
    ensures b.requested
  {
  }

  /** A thread that goes on because nobody else is queued keeps the request for scheduling: the first
      thread that one of its calls makes runnable runs at once, before the call returns. */
  lemma {:induction false} WokenRunsAtOnce(a: State, ev: Event, b: State, t: Tid)
    requires AtUser(a) && a.requested && a.th[a.current].status == Runnable
    requires Enabled(a, ev) && Joined(a, ev, []) == [t] && Trap(a, ev) == Some(b)
    ensures b.current == t && b.th[t].slice == TASK_QUANTUM && !b.requested
  {
    var c := Handle(a, ev).value;
    HandleKeeps(a, ev);
    RequestStays(a, ev, c);
    OnlyOneQueued(a, ev, c, t);
    SwitchesTo(c, t);
  }

  lemma {:induction false} SwitchesTo(c: State, t: Tid)
    requires Closed(c) && c.requested && c.run.head == Some(t)
    ensures Schedule(c).current == t && t in Schedule(c).th && Schedule(c).th[t].slice == TASK_QUANTUM && !Schedule(c).requested
  {
  }

  lemma {:induction false} OnlyOneQueued(a: State, ev: Event, c: State, t: Tid)
    requires AtUser(a) && a.requested && a.th[a.current].status == Runnable
    requires Enabled(a, ev) && Joined(a, ev, []) == [t] && Handle(a, ev) == Some(c)
    ensures c.run.head == Some(t)
  {
    if Fresh(a, ev, []) {
      assert Ordered(a, []);
      HandleLined(a, ev, c, []);
    } else {
      SelfJoins(a, c);
      assert Joined(a, ev, [])[0] == a.current;
    }
  }

  lemma {:induction false} SelfJoins(a: State, c: State)
    requires Defined(a) && a.current != IDLE && a.run == List(None, None) && Handle(a, Resume(a.current)) == Some(c)
    ensures c.run == List(Some(a.current), Some(a.current)) && c.current == a.current
  {
  }

  // ---------------------------------------------------------------- round-robin

  /** The threads that share the processor, the current one first. */
  function Turn(a: State, q: seq<Tid>): (l: seq<Tid>) { [a.current] + q }

  /** Several distinct runnable threads share the processor and only time passes. */
  ghost predicate Sharing(a: State, q: seq<Tid>)
  {
    && Closed(a) && a.th[IDLE].status == Idle && !a.requested && q != [] && Ordered(a, q)
    && a.current != IDLE && 1 <= a.th[a.current].slice <= TASK_QUANTUM
  }

  /** Three or more threads, or two whose links are clear or lead to each other: then the run queue
      stays exact. */
  ghost predicate Enough(a: State, q: seq<Tid>)
    requires a.current in a.th
  {
    |q| >= 2 || (|q| == 1 && q[0] in a.th && ClearOr(a.th, q[0], a.current) && ClearOr(a.th, a.current, q[0]))
  }

  predicate ClearOr(th: ThreadMap, t: Tid, u: Tid)
    requires t in th
  {
    th[t].next == None || th[t].next == Some(u)
  }

  /** A whole tick trap of a state in which threads share the processor. */
  function TickTrap(a: State): (b: State)
    requires Closed(a) && a.current != IDLE && a.th[a.current].slice > 0
  {
    Schedule(DoTick(a).value)
  }

  lemma {:induction false} TickTrapIsTrap(a: State)
    requires AtUser(a) && a.current != IDLE
    ensures Trap(a, Tick) == Some(TickTrap(a))
  {
  }

  /** At every return to user mode with others queued, threads share. */
  lemma {:induction false} QueuedMeansSharing(a: State, q: seq<Tid>)
    requires AtUser(a) && Ordered(a, q) && a.current != IDLE && q != []
    ensures Sharing(a, q)
  {
  }

  function RotateOnce(l: seq<Tid>): (r: seq<Tid>)
    requires l != []
  {
    l[1..] + [l[0]]
  }

  /** A tick in the middle of a quantum only takes time. */
  lemma {:induction false} MidQuantum(a: State, q: seq<Tid>)
    requires Sharing(a, q) && a.th[a.current].slice > 1
    ensures TickTrap(a) == SetThread(a, a.current, a.th[a.current].(slice := a.th[a.current].slice - 1))
    ensures Sharing(TickTrap(a), q) && ScheduleExact(DoTick(a).value, q)
  {
    LinedField(a.th, a.run, q, a.current, a.current, a.th[a.current].(slice := a.th[a.current].slice - 1));
  }

  lemma {:induction false} LastTickLined(a: State, q: seq<Tid>)
    requires Sharing(a, q) && a.th[a.current].slice == 1 && Enough(a, q)
    ensures var c := DoTick(a).value;
            Closed(c) && Lined(c.th, c.run, q, c.current) && c.requested && ScheduleExact(c, q) && c.current == a.current
    ensures var c := DoTick(a).value; c.th == a.th[a.current := a.th[a.current].(slice := 0)] && c.run == a.run
  {
    LinedField(a.th, a.run, q, a.current, a.current, a.th[a.current].(slice := 0));
  }

  /** With one thread queued, scheduling sets no link that was not set. */
  lemma {:induction false} SameLinks(a: State, q: seq<Tid>)
    requires Closed(a) && Lined(a.th, a.run, q, a.current) && ScheduleExact(a, q) && a.requested && q != []
    ensures Schedule(a).th.Keys == a.th.Keys && Schedule(a).th[q[0]].slice == TASK_QUANTUM && !Schedule(a).requested
    ensures |q| == 1 ==> forall t :: t in a.th ==> Schedule(a).th[t].next == a.th[t].next
  {
    PopShows(a.th, a.run, q);
  }

  lemma {:induction false} LinedClosed(a: State, b: State, q: seq<Tid>)
    requires Closed(a) && b.th.Keys == a.th.Keys && b.qs == a.qs && b.eps == a.eps && b.nts == a.nts && b.current in b.th
    requires Lined(b.th, b.run, q, b.current)
    ensures Closed(b)
  {
  }

  lemma {:induction false} ScheduleFrame(a: State)
    requires Closed(a)
    ensures var b := Schedule(a); b.qs == a.qs && b.eps == a.eps && b.nts == a.nts
    ensures a.th[IDLE].status == Idle ==> IDLE in Schedule(a).th && Schedule(a).th[IDLE].status == Idle
  {
    if a.requested && a.run.head.Some? {
      var b := Taken(a);
      assert b.qs == a.qs && b.eps == a.eps && b.nts == a.nts;
    }
  }

  /** The last tick of a quantum hands over to the next thread, which gets a full quantum. */
  lemma {:induction false} EndOfQuantum(a: State, q: seq<Tid>)
    requires Sharing(a, q) && a.th[a.current].slice == 1 && Enough(a, q)
    ensures var b, q' := TickTrap(a), q[1..] + [a.current];
            && Sharing(b, q') && Enough(b, q') && Turn(b, q') == RotateOnce(Turn(a, q))
            && b.th[b.current].slice == TASK_QUANTUM
    ensures ScheduleExact(DoTick(a).value, q)
  {
    var c := DoTick(a).value;
    LastTickLined(a, q);
    ScheduleShows(c, q);
    ScheduleOrdered(c, q);
    SameLinks(c, q);
    ScheduleFrame(c);
    LinedClosed(a, Schedule(c), q[1..] + [a.current]);
  }

  /** f applied n times. */
  function Iterate<T>(f: T -> T, x: T, n: nat): (y: T)
    decreases n
  {
    if n == 0 then x else Iterate(f, f(x), n - 1)
  }

  /** p holds before each of n applications of f. */
  predicate Throughout<T>(p: T -> bool, f: T -> T, x: T, n: nat)
    decreases n
  {
    n == 0 || (p(x) && Throughout(p, f, f(x), n - 1))
  }

  lemma {:induction false} IterateAdd<T>(p: T -> bool, f: T -> T, x: T, m: nat, n: nat)
    ensures Iterate(f, x, m + n) == Iterate(f, Iterate(f, x, m), n)
    ensures Throughout(p, f, x, m) && Throughout(p, f, Iterate(f, x, m), n) ==> Throughout(p, f, x, m + n)
    decreases m
  {
    if m > 0 {
      IterateAdd(p, f, f(x), m - 1, n);
    }
  }

  /** A state and what its run queue holds. */
  datatype Shared = Shared(a: State, q: seq<Tid>)

  /** One tick, when threads share the processor. */
  ghost function Step(x: Shared): (y: Shared)
  {
    if !Sharing(x.a, x.q) then x
    else Shared(TickTrap(x.a), if x.a.th[x.a.current].slice == 1 then x.q[1..] + [x.a.current] else x.q)
  }

  /** Threads share the processor and the run queue is exact at the next tick. */
  ghost predicate Steady(x: Shared) { Sharing(x.a, x.q) && ScheduleExact(DoTick(x.a).value, x.q) }

  ghost function Ticks(x: Shared, n: nat): (y: Shared) { Iterate(Step, x, n) }

  ghost predicate SteadyFor(x: Shared, n: nat) { Throughout(Steady, Step, x, n) }

  lemma {:induction false} MidQuanta(x: Shared, n: nat)
    requires Sharing(x.a, x.q) && x.a.th[x.a.current].slice > n
    ensures SteadyFor(x, n)
    ensures Ticks(x, n) == x.(a := SetThread(x.a, x.a.current, x.a.th[x.a.current].(slice := x.a.th[x.a.current].slice - n)))
    ensures Sharing(Ticks(x, n).a, x.q)
    decreases n
  {
    if n > 0 {
      MidQuantum(x.a, x.q);
      MidQuanta(Shared(TickTrap(x.a), x.q), n - 1);
    } else {
      assert x.a.th[x.a.current := x.a.th[x.a.current]] == x.a.th;
    }
  }

  /** The current thread has its whole quantum before it. */
  ghost predicate FullQuantum(x: Shared)
  {
    Sharing(x.a, x.q) && Enough(x.a, x.q) && x.a.th[x.a.current].slice == TASK_QUANTUM
  }

  /** One quantum: 20 ticks rotate the threads by one place. */
  lemma {:induction false} OneQuantum(x: Shared, n: nat)
    requires FullQuantum(x) && n == TASK_QUANTUM
    ensures SteadyFor(x, n)
    ensures FullQuantum(Ticks(x, n)) && Turn(Ticks(x, n).a, Ticks(x, n).q) == RotateOnce(Turn(x.a, x.q))
  {
    MidQuanta(x, n - 1);
    var m := Ticks(x, n - 1);
    EndOfQuantum(m.a, m.q);
    LastTick(m);
    IterateAdd(Steady, Step, x, n - 1, 1);
  }

  lemma {:induction false} LastTick(x: Shared)
    requires Steady(x)
    ensures SteadyFor(x, 1) && Ticks(x, 1) == Step(x)
  {
    assert Throughout(Steady, Step, Step(x), 0);
    assert Iterate(Step, Step(x), 0) == Step(x);
  }

  function Rotate(l: seq<Tid>, k: nat): (r: seq<Tid>)
    requires l != []
    decreases k
  {
    if k == 0 then l else Rotate(RotateOnce(l), k - 1)
  }

  lemma {:induction false} RotateIs(l: seq<Tid>, k: nat)
    requires l != [] && k <= |l|
    ensures Rotate(l, k) == l[k..] + l[..k]
    decreases k
  {
    if k > 0 {
      RotateIs(RotateOnce(l), k - 1);
      OnceMore(l, k);
    }
  }

  lemma {:induction false} OnceMore(l: seq<Tid>, k: nat)
    requires 0 < k <= |l|
    ensures RotateOnce(l)[k - 1..] + RotateOnce(l)[..k - 1] == l[k..] + l[..k]
  {
    var m := RotateOnce(l);
    forall i | 0 <= i < |l|
      ensures (m[k - 1..] + m[..k - 1])[i] == (l[k..] + l[..k])[i]
    {
    }
  }

  /** From x, q applications of f keep p and full, and rotate by one place. */
  ghost predicate Turns<T>(p: T -> bool, f: T -> T, full: T -> bool, turn: T -> seq<Tid>, q: nat, x: T)
  {
    full(x) ==> turn(x) != [] && Throughout(p, f, x, q) && full(Iterate(f, x, q)) && turn(Iterate(f, x, q)) == RotateOnce(turn(x))
  }

  lemma {:induction false} RotationRepeats<T(!new)>(p: T -> bool, f: T -> T, full: T -> bool, turn: T -> seq<Tid>,
                                                    q: nat, x: T, k: nat, n: nat)
    requires forall y {:trigger Turns(p, f, full, turn, q, y)} :: Turns(p, f, full, turn, q, y)
    requires full(x) && q == 20 && n == 20 * k
    ensures turn(x) != [] && Throughout(p, f, x, n) && full(Iterate(f, x, n)) && turn(Iterate(f, x, n)) == Rotate(turn(x), k)
    decreases k
  {
    assert Turns(p, f, full, turn, q, x);
    if k > 0 {
      RotationRepeats(p, f, full, turn, q, Iterate(f, x, q), k - 1, n - q);
      IterateAdd(p, f, x, q, n - q);
    }
  }

  lemma {:induction false} SharedRotates(x: Shared, k: nat, n: nat)
    requires FullQuantum(x) && n == 20 * k
    ensures SteadyFor(x, n)
    ensures FullQuantum(Ticks(x, n)) && Turn(Ticks(x, n).a, Ticks(x, n).q) == Rotate(Turn(x.a, x.q), k)
  {
    var n1: nat :| n1 == TASK_QUANTUM;
    var turn := (y: Shared) => Turn(y.a, y.q);
    forall y
      ensures Turns(Steady, Step, FullQuantum, turn, n1, y)
    {
      if FullQuantum(y) { OneQuantum(y, n1); }
    }
    RotationRepeats(Steady, Step, FullQuantum, turn, n1, x, k, n);
  }

  /** n timer ticks and nothing else. */
  function OnlyTicks(n: nat): (evs: seq<Event>) { seq(n, _ => Tick) }

  /** Ticks while threads share the processor are a run of the machine. */
  lemma {:induction false} TicksRun(x: Shared, n: nat)
    requires AtUser(x.a) && SteadyFor(x, n)
    ensures Runs(x.a, OnlyTicks(n)) && Last(x.a, OnlyTicks(n)) == Ticks(x, n).a
    decreases n
  {
    if n > 0 {
      TickTrapIsTrap(x.a);
      TicksRun(Step(x), n - 1);
      assert OnlyTicks(n) == [Tick] + OnlyTicks(n - 1);
      OneMore(x.a, Tick, OnlyTicks(n - 1), Step(x).a);
    }
  }

  /** The run queue holds q, and the current thread has its whole quantum before it. */
  ghost predicate AtQuantum(a: State, q: seq<Tid>)
  {
    AtUser(a) && Ordered(a, q) && a.current != IDLE && q != [] && Enough(a, q) && a.th[a.current].slice == TASK_QUANTUM
  }

  /** k quanta of ticks rotate the threads by k places. */
  lemma {:induction false} QuantaRotate(a: State, q: seq<Tid>, k: nat)
    requires AtQuantum(a, q)
    ensures var evs, l := OnlyTicks(20 * k), Rotate(Turn(a, q), k);
            && Runs(a, evs) && l != [] && Last(a, evs).current == l[0] && AtQuantum(Last(a, evs), l[1..])
  {
    var x := Shared(a, q);
    QueuedMeansSharing(a, q);
    SharedRotates(x, k, 20 * k);
    TicksRun(x, 20 * k);
    RunKeepsInvariant(a, OnlyTicks(20 * k));
    var y := Ticks(x, 20 * k);
    assert Turn(y.a, y.q)[1..] == y.q;
  }

  /** Thread t runs with n ticks left. */
  predicate HasLeft(a: State, t: Tid, n: nat) { a.current == t && t in a.th && a.th[t].slice == n }

  /** Inside a quantum the current thread goes on. */
  lemma {:induction false} InsideQuantum(a: State, q: seq<Tid>, j: nat)
    requires AtQuantum(a, q) && j < TASK_QUANTUM
    ensures Runs(a, OnlyTicks(j)) && HasLeft(Last(a, OnlyTicks(j)), a.current, TASK_QUANTUM - j)
  {
    QueuedMeansSharing(a, q);
    MidQuanta(Shared(a, q), j);
    TicksRun(Shared(a, q), j);
  }

  /** Of n threads the i-th runs during the whole i-th quantum. */
  lemma {:induction false} RoundRobin(a: State, q: seq<Tid>, i: nat, j: nat)
    requires AtQuantum(a, q) && i <= |q| && j < TASK_QUANTUM
    ensures var evs := OnlyTicks(20 * i) + OnlyTicks(j); Runs(a, evs) && HasLeft(Last(a, evs), Turn(a, q)[i], TASK_QUANTUM - j)
  {
    var l := Turn(a, q);
    QuantaRotate(a, q, i);
    RotateIs(l, i);
    InsideQuantum(Last(a, OnlyTicks(20 * i)), Rotate(l, i)[1..], j);
    RunOn(a, OnlyTicks(20 * i), OnlyTicks(j));
  }

  /** After n quanta the order is the original one. */
  lemma {:induction false} FullCircle(a: State, q: seq<Tid>)
    requires AtQuantum(a, q)
    ensures var all := OnlyTicks(20 * (|q| + 1)); Runs(a, all) && Last(a, all).current == a.current && AtQuantum(Last(a, all), q)
  {
    var l := Turn(a, q);
    QuantaRotate(a, q, |l|);
    RotateIs(l, |l|);
    assert l[|l|..] + l[..|l|] == l && l[1..] == q;
  }

  /** A run and then another. */
  lemma {:induction false} RunOn(a: State, evs: seq<Event>, more: seq<Event>)
    requires AtUser(a) && Runs(a, evs) && AtUser(Last(a, evs)) && Runs(Last(a, evs), more)
    ensures Runs(a, evs + more) && Last(a, evs + more) == Last(Last(a, evs), more)
    decreases |evs|
  {
    if evs == [] {
      assert evs + more == more;
    } else {
      var b := Trap(a, evs[0]).value;
      RunKeepsInvariant(b, evs[1..]);
      RunOn(b, evs[1..], more);
      assert evs + more == [evs[0]] + (evs[1..] + more);
      OneMore(a, evs[0], evs[1..] + more, b);
    }
  }

  // ---------------------------------------------------------------- how it goes wrong

  /** Thread 1 runs and thread 2 is queued behind it, as after both were queued and 1 was popped;
      one tick of the quantum is left and endpoint 7 is free. */
  function TwoThreads(): (a: State)
  {
    var t := Thread(Runnable, 1, 0, 0, 0, None, None);
    State(map[IDLE := t.(status := Idle), 1 := t.(next := Some(2)), 2 := t],
          map[], List(Some(2), Some(2)), map[OfEp(7) := []], false, 1, map[7 := Free], map[])
  }

  /** After the quantum has ended thread 2 runs; thread 1 is queued, and its old link leads to thread 2. */
  function SecondRuns(): (a: State)
  {
    var t := Thread(Runnable, 1, 0, 0, 0, None, None);
    State(map[IDLE := t.(status := Idle), 1 := t.(next := Some(2), slice := 0), 2 := t.(slice := TASK_QUANTUM)],
          map[], List(Some(1), Some(1)), map[OfEp(7) := []], false, 2, map[7 := Free], map[])
  }

  /** After thread 2 has blocked to receive thread 1 runs, and the run queue goes on to thread 2. */
  function FirstRunsAgain(): (a: State)
  {
    var t := Thread(Runnable, 1, 0, 0, 0, None, None);
    State(map[IDLE := t.(status := Idle), 1 := t.(next := Some(2), slice := TASK_QUANTUM), 2 := t.(status := Blocked, slice := TASK_QUANTUM)],
          map[], List(Some(2), Some(1)), map[OfEp(7) := [2]], false, 1, map[7 := Receiving], map[])
  }

  lemma {:induction false} TwoThreadsAtUser()
    ensures AtUser(TwoThreads()) && Ordered(TwoThreads(), [2])
  {
  }

  lemma {:induction false} SecondRunsAtUser()
    ensures AtUser(SecondRuns()) && Ordered(SecondRuns(), [1])
  {
  }

  lemma {:induction false} SecondTakesOver(a: State)
    requires a == TwoThreads()
    ensures Closed(a) && DoTick(a).Some? && Closed(DoTick(a).value) && Schedule(DoTick(a).value) == SecondRuns()
  {
    var b, c := SecondRuns(), DoTick(a).value;
    assert c.th == a.th[1 := a.th[1].(slice := 0)];
    assert Schedule(c).th == b.th;
  }

  lemma {:induction false} SecondBlocks(b: State)
    requires b == SecondRuns()
    ensures Defined(b) && Enabled(b, Recv(7)) && Handle(b, Recv(7)).Some? && Closed(Handle(b, Recv(7)).value)
    ensures Schedule(Handle(b, Recv(7)).value) == FirstRunsAgain()
    ensures !ScheduleExact(Handle(b, Recv(7)).value, [1])
  {
    var d := FirstRunsAgain();
    var c := Handle(b, Recv(7)).value;
    assert c.th == b.th[2 := b.th[2].(status := Blocked)];
    assert c.qs[OfEp(7)] == [2];
    assert c.qs == d.qs && c.eps == d.eps;
    assert Schedule(c).th == d.th;
  }

  /** The run queue does go wrong: the quantum ends, then thread 2 blocks to receive.  Now nobody but
      the blocked thread 2 is on the list, as the next thread to run. */
  lemma {:induction false} BlockedThreadQueued()
    ensures AtUser(TwoThreads()) && Ordered(TwoThreads(), [2]) && Runs(TwoThreads(), [Tick, Recv(7)])
    ensures Last(TwoThreads(), [Tick, Recv(7)]) == FirstRunsAgain()
    ensures FirstRunsAgain().run.head == Some(2) && FirstRunsAgain().th[2].status == Blocked && 2 in FirstRunsAgain().qs[OfEp(7)]
  {
    FirstTrap();
    SecondTrap();
    TwoSteps(TwoThreads(), Tick, SecondRuns(), Recv(7), FirstRunsAgain());
  }

  lemma {:induction false} FirstTrap()
    ensures AtUser(TwoThreads()) && Ordered(TwoThreads(), [2]) && Enabled(TwoThreads(), Tick) && Trap(TwoThreads(), Tick) == Some(SecondRuns())
  {
    TwoThreadsAtUser();
    SecondTakesOver(TwoThreads());
  }

  lemma {:induction false} SecondTrap()
    ensures AtUser(SecondRuns()) && Enabled(SecondRuns(), Recv(7)) && Trap(SecondRuns(), Recv(7)) == Some(FirstRunsAgain())
  {
    SecondRunsAtUser();
    SecondBlocks(SecondRuns());
  }

  lemma {:induction false} TwoSteps(a: State, ev: Event, b: State, ev': Event, c: State)
    requires AtUser(a) && Enabled(a, ev) && Trap(a, ev) == Some(b) && Enabled(b, ev') && Trap(b, ev') == Some(c)
    ensures Runs(a, [ev, ev']) && Last(a, [ev, ev']) == c
  {
    OneMore(b, ev', [], c);
    assert [ev'] + [] == [ev'];
    OneMore(a, ev, [ev'], b);
    assert [ev] + [ev'] == [ev, ev'];
  }

  lemma {:induction false} OneMore(a: State, ev: Event, rest: seq<Event>, b: State)
    requires AtUser(a) && Enabled(a, ev) && Trap(a, ev) == Some(b) && Runs(b, rest)
    ensures Runs(a, [ev] + rest) && Last(a, [ev] + rest) == Last(b, rest)
  {
    assert ([ev] + rest)[1..] == rest;
  }

  // ---------------------------------------------------------------- resuming oneself

  /** What a thread that resumes itself with a clear link can come to: with nobody else queued it
      receives at a free endpoint, and is then blocked, waits there and still runs. */
  lemma {:induction false} SelfResumedRunsOn(a: State, e: nat) returns (b: State, d: State)
    requires AtUser(a) && a.current != IDLE && !Waits(a.qs, a.current) && a.th[a.current].next == None
    requires a.run == List(None, None) && e in a.eps && a.eps[e].Free?
    ensures Defined(a) && RawTrap(a, Resume(a.current)) == Some(b) && !AtUser(b)
    ensures Defined(b) && Enabled(b, Recv(e)) && RawTrap(b, Recv(e)) == Some(d)
    ensures d.current == a.current && a.current in d.th && d.th[a.current].status == Blocked && OfEp(e) in d.qs && a.current in d.qs[OfEp(e)]
  {
    ResumeExactly(a, a.current);
    b := RawTrap(a, Resume(a.current)).value;
    SelfQueued(a, b);
    d := BlocksAndRunsOn(b, e);
  }

  lemma {:induction false} SelfQueued(a: State, b: State)
    requires AtUser(a) && a.current != IDLE && a.th[a.current].next == None && a.run == List(None, None)
    requires Defined(a) && RawTrap(a, Resume(a.current)) == Some(b)
    ensures b.current == a.current && b.run == List(Some(a.current), Some(a.current)) && b.qs == a.qs && b.eps == a.eps && b.nts == a.nts
    ensures b.th.Keys == a.th.Keys && b.th[a.current].next == None
  {
  }

  /** A thread that is alone in the run queue while it runs and blocks is switched to. */
  lemma {:induction false} BlocksAndRunsOn(b: State, e: nat) returns (d: State)
    requires Defined(b) && e in b.eps && b.eps[e].Free? && b.qs[OfEp(e)] == [] && b.th[b.current].next == None
    requires b.run == List(Some(b.current), Some(b.current))
    ensures RawTrap(b, Recv(e)) == Some(d) && d.current == b.current && b.current in d.th && d.th[b.current].status == Blocked
    ensures OfEp(e) in d.qs && b.current in d.qs[OfEp(e)]
  {
    var c := Handle(b, Recv(e)).value;
    assert c.qs[OfEp(e)] == [b.current];
    assert Closed(c);
    d := Schedule(c);
  }

  /** Such a state: one thread runs, nobody is queued and endpoint 7 is free. */
  function Alone(): (a: State)
  {
    var t := Thread(Runnable, 1, 0, 0, 0, None, None);
    State(map[IDLE := t.(status := Idle), 1 := t], map[], List(None, None), map[OfEp(7) := []], false, 1, map[7 := Free], map[])
  }

  lemma {:induction false} AloneResumesItself() returns (b: State, d: State)
    ensures Defined(Alone()) && AtUser(Alone()) && RawTrap(Alone(), Resume(1)) == Some(b)
    ensures Defined(b) && Enabled(b, Recv(7)) && RawTrap(b, Recv(7)) == Some(d)
    ensures d.current == 1 && 1 in d.th && d.th[1].status == Blocked && OfEp(7) in d.qs && 1 in d.qs[OfEp(7)]
  {
    AloneAtUser();
    b, d := SelfResumedRunsOn(Alone(), 7);
  }

  lemma {:induction false} AloneAtUser()
    ensures AtUser(Alone()) && !Waits(Alone().qs, 1)
  {
  }

  /** A waiting thread at the end of the run queue gets a link from the next thread that is queued, and
      then waking it stops the kernel although nobody else waits with it. */
  lemma {:induction false} LinkedWaiterStops(a: State, e: nat, t: Tid, u: Tid, badge: nat)
    requires Defined(a) && e in a.eps && a.eps[e] == Receiving && a.qs[OfEp(e)] == [t] && a.run.last == Some(t)
    requires u in a.th && u != IDLE && u != t && t != a.current
    ensures var b := MakeRunnable(a, u); Defined(b) && DoSend(b, e, badge) == None
  {
  }
}
