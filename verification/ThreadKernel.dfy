/**
 The kernel's form of the thread machine: intrusive singly linked queues, changed in place.
 A queue is two pointers, the links are in the threads, and popping leaves the link of the
 removed thread as it was.  Each operation is proved to do what the machine of `Threads`
 does, whatever the run queue has come to.
 */
module ThreadKernel {
  import opened Kinds
  import opened Bits
  import opened Threads
  import opened RunQueue

  /** Such a queue with no link after the last thread. */
  ghost predicate Ended(th: ThreadMap, q: seq<Tid>)
  {
    Chained(th, q) && (q != [] ==> th[q[|q| - 1]].next == None)
  }

  lemma {:induction false} LinkedQueue(th: ThreadMap, qs: Queues, k: QId)
    requires Linked(th, qs) && k in qs
    ensures Ended(th, qs[k])
  {
  }

  /** Every list shows the queue of the same name. */
  ghost predicate AllShow(lists: map<QId, List>, qs: Queues)
  {
    lists.Keys == qs.Keys && forall k :: k in qs ==> Shows(lists[k], qs[k])
  }

  lemma {:induction false} ShowOne(lists: map<QId, List>, qs: Queues, k: QId, l: List, q: seq<Tid>)
    requires AllShow(lists, qs) && k in qs && Shows(l, q)
    ensures AllShow(lists[k := l], qs[k := q])
  {
  }

  lemma {:induction false} ClosedPush(a: State, th: ThreadMap, k: QId, t: Tid)
    requires Closed(a) && k in a.qs && t in a.th && th.Keys == a.th.Keys
    ensures Closed(a.(th := th, qs := a.qs[k := a.qs[k] + [t]]))
  {
  }

  lemma {:induction false} ClosedThread(a: State, th: ThreadMap)
    requires Closed(a) && th.Keys == a.th.Keys
    ensures Closed(a.(th := th))
  {
  }

  lemma {:induction false} ClosedRun(a: State, th: ThreadMap, run: List, cur: Tid)
    requires Closed(a) && th.Keys == a.th.Keys && cur in th
    requires (run.head.Some? ==> run.head.value in th) && (run.last.Some? ==> run.last.value in th)
    ensures Closed(a.(th := th, run := run, current := cur))
  {
  }

  lemma {:induction false} ClosedTail(a: State, k: QId)
    requires Closed(a) && k in a.qs && a.qs[k] != []
    ensures a.qs[k][|a.qs[k]| - 1] in a.th && a.qs[k][0] in a.th
  {
  }

  lemma {:induction false} ClosedPopNt(a: State, n: nat)
    requires Closed(a) && n in a.nts && a.qs[OfNt(n)] != []
    ensures Closed(a.(qs := a.qs[OfNt(n) := a.qs[OfNt(n)][1..]]))
  {
  }

  lemma {:induction false} ClosedPop(a: State, e: nat)
    requires Closed(a) && e in a.eps && a.qs[OfEp(e)] != []
    ensures Closed(PopEp(a, e))
  {
  }

  lemma {:induction false} LinkLastLeads(th: ThreadMap, l: List, t: Tid)
    requires LinksLead(th) && (l.last.Some? ==> l.last.value in th) && t in th && t != IDLE
    ensures LinksLead(LinkLast(th, l, t))
  {
    if l.last.Some? { LinksUpdate(th, l.last.value, th[l.last.value].(next := Some(t))); }
  }

  /** The two ends of a list that shows q are those of q. */
  lemma {:induction false} EndsOf(th: ThreadMap, l: List, q: seq<Tid>, t: Tid)
    requires Shows(l, q) && (q != [] ==> q[|q| - 1] in th)
    ensures Shows(Pushed(l, t), q + [t]) && LinkLast(th, l, t) == Link(th, q, t)
  {
  }

  lemma {:induction false} EnqueueWorks(a: State, lists: map<QId, List>, k: QId, t: Tid)
    requires Closed(a) && LinksLead(a.th) && AllShow(lists, a.qs) && k in a.qs && t in a.th && t != IDLE
    ensures a.qs[k] != [] ==> a.qs[k][|a.qs[k]| - 1] in a.th
    ensures lists[k].last.Some? ==> lists[k].last.value in a.th
    ensures var th := LinkLast(a.th, lists[k], t);
            && th == Link(a.th, a.qs[k], t) && LinksLead(th)
            && Closed(a.(th := th, qs := a.qs[k := a.qs[k] + [t]]))
            && AllShow(lists[k := Pushed(lists[k], t)], a.qs[k := a.qs[k] + [t]])
  {
    if a.qs[k] != [] { ClosedTail(a, k); }
    EndsOf(a.th, lists[k], a.qs[k], t);
    LinkLastLeads(a.th, lists[k], t);
    ShowOne(lists, a.qs, k, Pushed(lists[k], t), a.qs[k] + [t]);
    ClosedPush(a, LinkLast(a.th, lists[k], t), k, t);
  }

  class Kernel {
    var th: ThreadMap
    var msgs: map<nat, seq<nat>>
    var run: List
    /** The queue of each endpoint and notification. */
    var lists: map<QId, List>
    var requested: bool
    var current: Tid
    var eps: map<nat, Side>
    var nts: map<nat, Pending>
    /** What the lists hold. */
    ghost var qs: Queues

    /** The state of the machine that this is a form of. */
    ghost function View(): (a: State)
      reads this
    {
      State(th, msgs, run, qs, requested, current, eps, nts)
    }

    ghost predicate Valid()
      reads this
    {
      Closed(View()) && LinksLead(th) && AllShow(lists, qs)
    }

    /** Append t to a list by setting the link of its last thread.  If the list held q and t is not in
        it, it now holds q and t, whatever t's own link is; no other link changes. */
    method Push(l: List, t: Tid, ghost q: seq<Tid>) returns (l': List)
      requires l.last.Some? ==> l.last.value in th
      modifies this`th
      ensures th == LinkLast(old(th), l, t) && l' == Pushed(l, t)
      ensures Shows(l, q) ==> Shows(l', q + [t])
      ensures Shows(l, q) && Chained(old(th), q) && Distinct(q) && t in old(th) && t !in q ==> Chained(th, q + [t])
      ensures forall u :: u in old(th) && l.last != Some(u) ==> u in th && th[u] == old(th)[u]
    {
      if l.last.Some? {
        var prev := l.last.value;
        th := th[prev := th[prev].(next := Some(t))];
        l' := List(l.head, Some(t));
      } else {
        l' := List(Some(t), Some(t));
      }
      if Shows(l, q) && Chained(old(th), q) && Distinct(q) && t in old(th) && t !in q {
        PushShows(old(th), l, q, t);
      }
    }

    /** Take the first thread of a list, leaving its link alone.  If the list held q, what is left shows
        the rest of q exactly if q has a second thread or the first has no link; otherwise the list
        goes on from wherever that link leads. */
    method Pop(l: List, ghost q: seq<Tid>) returns (l': List, r: Option<Tid>)
      requires l.head.Some? ==> l.head.value in th
      ensures r == l.head && l' == Popped(th, l)
      ensures Shows(l, q) && Chained(th, q) && q != [] ==> r == Some(q[0]) && PopLeaves(th, q, l') && Chained(th, q[1..])
    {
      r := l.head;
      var next := if r.Some? then th[r.value].next else None;
      l' := List(next, if next.None? then None else l.last);
      if Shows(l, q) && Chained(th, q) && q != [] {
        PopShows(th, l, q);
      }
    }

    /** Append t to the list k. */
    method Enqueue(k: QId, t: Tid)
      requires k in lists && k in qs && (lists[k].last.Some? ==> lists[k].last.value in th)
      modifies this`th, this`lists, this`qs
      ensures th == LinkLast(old(th), old(lists)[k], t) && lists == old(lists)[k := Pushed(old(lists)[k], t)]
      ensures qs == old(qs)[k := old(qs)[k] + [t]]
    {
      var l := Push(lists[k], t, qs[k]);
      lists := lists[k := l];
      qs := qs[k := qs[k] + [t]];
    }

    /** Queue t to run. */
    method PushToRun(t: Tid)
      requires Valid() && t in th && t != IDLE
      modifies this`th, this`run
      ensures Valid() && View() == PushRun(old(View()), t)
    {
      LinkLastLeads(th, run, t);
      var l := Push(run, t, []);
      ClosedRun(old(View()), th, l, current);
      run := l;
    }

    method SetFields(t: Tid, x: Thread)
      requires Valid() && t in th && x.next == th[t].next
      modifies this`th
      ensures Valid() && View() == SetThread(old(View()), t, x)
    {
      LinksSame(th, t, x);
      th := th[t := x];
      ClosedThread(old(View()), th);
    }

    /** Make t runnable and queue it. */
    method Resume(t: Tid)
      requires Valid() && t in th && t != IDLE
      modifies this`th, this`run
      ensures Valid() && View() == MakeRunnable(old(View()), t)
    {
      SetFields(t, th[t].(status := Runnable));
      PushToRun(t);
    }

    /** Wake a thread taken from a queue; a link that is set stops the kernel. */
    method WakeUp(t: Tid) returns (ok: bool)
      requires Valid() && t in th && t != IDLE
      modifies this`th, this`run
      ensures var b := Wake(old(View()), t); ok == b.Some? && (ok ==> Valid() && View() == b.value)
    {
      if th[t].next.Some? {
        return false;
      }
      Resume(t);
      ok := true;
    }

    /** Block the current thread on list k; a link that is set stops the kernel. */
    method BlockOn(k: QId) returns (ok: bool)
      requires Valid() && k in qs && current != IDLE
      modifies this`th, this`lists, this`requested, this`qs
      ensures var b := Block(old(View()), k); ok == b.Some? && (ok ==> Valid() && View() == b.value)
    {
      if th[current].next.Some? {
        return false;
      }
      SetFields(current, th[current].(status := Blocked));
      AppendTo(k, current);
      requested := true;
      ok := true;
    }

    /** Append t to the queue k. */
    method AppendTo(k: QId, t: Tid)
      requires Valid() && k in qs && t in th && t != IDLE
      modifies this`th, this`lists, this`qs
      ensures old(View()).qs[k] != [] ==> old(View()).qs[k][|old(View()).qs[k]| - 1] in old(View()).th
      ensures Valid() && var a := old(View()); View() == a.(th := Link(a.th, a.qs[k], t), qs := a.qs[k := a.qs[k] + [t]])
    {
      EnqueueWorks(View(), lists, k, t);
      Enqueue(k, t);
    }

    /** Remove the first thread of the queue k of an endpoint or notification: there the last
        thread never has a link, so the pop is exact. */
    method Dequeue(k: QId) returns (t: Tid)
      requires AllShow(lists, qs) && k in qs && Ended(th, qs[k]) && qs[k] != []
      modifies this`lists, this`qs
      ensures AllShow(lists, qs)
      ensures t == old(qs)[k][0] && t in th && qs == old(qs)[k := old(qs)[k][1..]]
    {
      ghost var q := qs[k];
      var l, r := Pop(lists[k], q);
      ShowOne(lists, qs, k, l, q[1..]);
      lists := lists[k := l];
      qs := qs[k := q[1..]];
      t := r.value;
    }

    /** Take a partner from endpoint e, if the other side waits there; otherwise the endpoint is
        now waited at from this side. */
    method PopFromQueue(e: nat, side: Side) returns (r: Option<Tid>)
      requires Valid() && e in eps && Ended(th, qs[OfEp(e)]) && !side.Free?
      requires eps[e].Free? <==> qs[OfEp(e)] == []
      modifies this`lists, this`qs, this`eps
      ensures Valid()
      ensures var a := old(View());
              if a.eps[e] == side || a.eps[e].Free?
              then r == None && View() == a.(eps := a.eps[e := side])
              else a.qs[OfEp(e)] != [] && r == Some(a.qs[OfEp(e)][0]) && View() == PopEp(a, e)
    {
      if eps[e] == Free || eps[e] == side {
        eps := eps[e := side];
        return None;
      }
      ClosedPop(View(), e);
      var t := Dequeue(OfEp(e));
      if lists[OfEp(e)].head.None? {
        eps := eps[e := Free];
      }
      r := Some(t);
    }

    /** The IPC buffer of one thread copied to that of another, if both have one. */
    method SetIpcMsg(from: Tid, to: Tid)
      requires from in th && to in th
      modifies this`msgs
      ensures msgs == CopyMsg(old(View()), from, to)
    {
      if th[from].ipc.Some? && th[to].ipc.Some? && th[from].ipc.value in msgs {
        msgs := msgs[th[to].ipc.value := msgs[th[from].ipc.value]];
      }
    }

    /** Hand the message and badge of `from` to `to`, and wake the one of them that was waiting. */
    method Deliver(from: Tid, to: Tid, waiting: Tid) returns (ok: bool)
      requires Valid() && from in th && to in th && waiting in th && waiting != IDLE
      modifies this
      ensures var b := Handover(old(View()), from, to, waiting); ok == b.Some? && (ok ==> Valid() && View() == b.value)
    {
      SetIpcMsg(from, to);
      SetFields(to, th[to].(a1 := th[from].badge));
      ok := WakeUp(waiting);
    }

    method SendMessage(e: nat) returns (ok: bool)
      requires Valid() && Defined(View()) && EpReady(View(), e)
      modifies this
      ensures var b := SendMsg(old(View()), e); ok == b.Some? && (ok ==> Valid() && View() == b.value)
    {
      var partner := PopFromQueue(e, Sending);
      if partner.Some? {
        ok := Deliver(current, partner.value, partner.value);
      } else {
        ok := BlockOn(OfEp(e));
      }
    }

    /** Send through endpoint e with the badge of the capability used. */
    method EpSend(e: nat, badge: nat) returns (ok: bool)
      requires Valid() && Defined(View()) && EpReady(View(), e)
      modifies this
      ensures var b := DoSend(old(View()), e, badge); ok == b.Some? && (ok ==> Valid() && View() == b.value)
    {
      SetFields(current, th[current].(badge := badge));
      ok := SendMessage(e);
    }

    /** Receive through endpoint e. */
    method EpRecv(e: nat) returns (ok: bool)
      requires Valid() && Defined(View()) && EpReady(View(), e)
      modifies this
      ensures var b := DoRecv(old(View()), e); ok == b.Some? && (ok ==> Valid() && View() == b.value)
    {
      var partner := PopFromQueue(e, Receiving);
      if partner.Some? {
        ok := Deliver(partner.value, current, partner.value);
      } else {
        ok := BlockOn(OfEp(e));
      }
    }

    method DequeueNt(n: nat) returns (t: Tid)
      requires Valid() && n in nts && Ended(th, qs[OfNt(n)]) && qs[OfNt(n)] != []
      modifies this`lists, this`qs
      ensures Valid() && t in th
      ensures t == old(qs)[OfNt(n)][0] && View() == old(View()).(qs := old(qs)[OfNt(n) := old(qs)[OfNt(n)][1..]])
    {
      ClosedPopNt(View(), n);
      t := Dequeue(OfNt(n));
    }

    /** The first waiter of notification n is handed the value and woken. */
    method WakeWaiter(n: nat, val: nat) returns (ok: bool)
      requires Valid() && NtReady(View(), n) && qs[OfNt(n)] != []
      modifies this
      ensures var b := WakeFirst(old(View()), n, val); ok == b.Some? && (ok ==> Valid() && View() == b.value)
    {
      var t := DequeueNt(n);
      SetFields(t, th[t].(a1 := val));
      ok := WakeUp(t);
    }

    /** Signal notification n: the first waiter gets the value, or it is added to the pending bits. */
    method NtSignal(n: nat, val: nat) returns (ok: bool)
      requires Valid() && Defined(View()) && NtReady(View(), n)
      modifies this
      ensures var b := DoSignal(old(View()), n, val); ok == b.Some? && (ok ==> Valid() && View() == b.value)
    {
      if lists[OfNt(n)].head.Some? {
        ok := WakeWaiter(n, val);
      } else {
        nts := nts[n := Pending(Or(nts[n].bits, val), true)];
        ok := true;
      }
    }

    /** Wait at notification n: take the pending bits, or block. */
    method NtWait(n: nat) returns (ok: bool)
      requires Valid() && Defined(View()) && NtReady(View(), n)
      modifies this
      ensures var b := DoWait(old(View()), n); ok == b.Some? && (ok ==> Valid() && View() == b.value)
    {
      if nts[n].isSet {
        SetFields(current, th[current].(a1 := nts[n].bits));
        nts := nts[n := Pending(0, false)];
        ok := true;
      } else {
        ok := BlockOn(OfNt(n));
      }
    }

    /** One tick of the time slice; a slice that is already used up stops the kernel. */
    method TimerTick() returns (ok: bool)
      requires Valid()
      modifies this`th, this`requested
      ensures var b := DoTick(old(View())); ok == b.Some? && (ok ==> Valid() && View() == b.value)
    {
      if current == IDLE {
        return true;
      }
      if th[current].slice == 0 {
        return false;
      }
      SetFields(current, th[current].(slice := th[current].slice - 1));
      if th[current].slice == 0 {
        requested := true;
      }
      ok := true;
    }

    /** Take the first thread off the run queue and give it a full slice. */
    method TakeNext() returns (next: Tid)
      requires Valid() && run.head.Some?
      modifies this`th, this`run
      ensures Valid() && next == old(run).head.value && View() == Taken(old(View()))
    {
      assert LinkLeads(th, run.head.value);
      var l, r := Pop(run, []);
      next := r.value;
      SetFields(next, th[next].(slice := TASK_QUANTUM));
      ClosedRun(View(), th, l, current);
      run := l;
    }

    /** Switch threads if that has been asked for. */
    method Schedule()
      requires Valid() && th[IDLE].status != Runnable
      modifies this
      ensures Valid() && View() == Threads.Schedule(old(View()))
    {
      if !requested {
        return;
      }
      if run.head.Some? {
        var next := TakeNext();
        if th[current].status == Runnable {
          PushToRun(current);
        }
        current := next;
      } else {
        run := List(None, None);
        if th[current].status == Runnable {
          SetFields(current, th[current].(slice := TASK_QUANTUM));
          return;
        }
        current := IDLE;
      }
      requested := false;
    }

    /** What a system call does before its result is written back. */
    method Dispatch(ev: Event) returns (ok: bool)
      requires Valid() && Defined(View()) && Enabled(View(), ev) && Ready(View(), ev) && !ev.Tick?
      modifies this
      ensures var b := Call(old(View()), ev); ok == b.Some? && (ok ==> Valid() && View() == b.value)
    {
      match ev
      case Send(e, badge) => ok := EpSend(e, badge);
      case Recv(e) => ok := EpRecv(e);
      case Signal(n, val) => ok := NtSignal(n, val);
      case Wait(n) => ok := NtWait(n);
      case Resume(t) => Resume(t); ok := true;
      case Other(_, a1) => SetFields(current, th[current].(a1 := a1)); ok := true;
    }

    method WriteResult(t: Tid, a0: nat)
      requires Valid()
      modifies this`th
      ensures Valid() && Some(View()) == WriteBack(Some(old(View())), t, a0)
    {
      if t in th {
        SetFields(t, th[t].(a0 := a0));
      }
    }

    /** A system call: the caller's a0 becomes its result; a1 is what the call left there. */
    method HandleSyscall(ev: Event) returns (ok: bool)
      requires Valid() && Defined(View()) && Enabled(View(), ev) && Ready(View(), ev) && !ev.Tick?
      modifies this
      ensures var b := Handle(old(View()), ev); ok == b.Some? && (ok ==> Valid() && View() == b.value)
    {
      var caller := current;
      ok := Dispatch(ev);
      if ok {
        WriteResult(caller, ResultOf(ev));
      }
    }

    method HandleEvent(ev: Event) returns (ok: bool)
      requires Valid() && Defined(View()) && Enabled(View(), ev) && Ready(View(), ev)
      modifies this
      ensures var b := Handle(old(View()), ev); ok == b.Some? && (ok ==> Valid() && View() == b.value)
    {
      if ev.Tick? {
        ok := TimerTick();
      } else {
        ok := HandleSyscall(ev);
      }
    }

    /** One trap, from any state that the kernel can return to user mode in: it stops the kernel exactly
        when the machine's step does, and otherwise ends in the state of the machine. */
    method HandleTrap(ev: Event) returns (ok: bool)
      requires Valid() && AtUser(View()) && Enabled(View(), ev)
      modifies this
      ensures var b := Trap(old(View()), ev); ok == b.Some? && (ok ==> Valid() && View() == b.value)
    {
      ghost var a := View();
      CoreReady(a, ev);
      ok := HandleEvent(ev);
      if ok {
        TrapSchedules(a, ev, View());
        Schedule();
      }
    }
  }

  lemma {:induction false} TrapSchedules(a: State, ev: Event, b: State)
    requires AtUser(a) && Enabled(a, ev) && Handle(a, ev) == Some(b)
    ensures Closed(b) && b.th[IDLE].status == Idle && Trap(a, ev) == Some(Threads.Schedule(b))
  {
    HandleKeeps(a, ev);
  }

  /** The queue of an endpoint is well formed, and nobody waits if it is free; the caller is not idle,
      and neither are the threads that wait. */
  ghost predicate EpReady(a: State, e: nat)
    requires Closed(a)
  {
    && e in a.eps && a.current != IDLE && Ended(a.th, a.qs[OfEp(e)]) && (a.eps[e].Free? ==> a.qs[OfEp(e)] == [])
    && (a.qs[OfEp(e)] != [] ==> a.qs[OfEp(e)][0] != IDLE)
  }

  ghost predicate NtReady(a: State, n: nat)
    requires Closed(a)
  {
    && n in a.nts && a.current != IDLE && Ended(a.th, a.qs[OfNt(n)])
    && (a.qs[OfNt(n)] != [] ==> a.qs[OfNt(n)][0] != IDLE)
  }

  /** What an event names is well formed. */
  ghost predicate Ready(a: State, ev: Event)
    requires Closed(a)
  {
    match ev
    case Send(e, _) => EpReady(a, e)
    case Recv(e) => EpReady(a, e)
    case Signal(n, _) => NtReady(a, n)
    case Wait(n) => NtReady(a, n)
    case _ => true
  }

  lemma {:induction false} CoreReady(a: State, ev: Event)
    requires Core(a) && Enabled(a, ev)
    ensures Defined(a) && Ready(a, ev)
  {
    match ev
    case Send(e, _) => LinkedQueue(a.th, a.qs, OfEp(e));
    case Recv(e) => LinkedQueue(a.th, a.qs, OfEp(e));
    case Signal(n, _) => LinkedQueue(a.th, a.qs, OfNt(n));
    case Wait(n) => LinkedQueue(a.th, a.qs, OfNt(n));
    case _ =>
  }
}
