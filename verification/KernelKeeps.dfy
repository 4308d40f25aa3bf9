/** What every kernel operation keeps. */
module KernelKeeps {
  import opened RingQueue
  import opened KernelState
  import opened KernelTimers

  // ---------- the invariants ----------

  /** A thread is in the ready queue, once, exactly if it is ready, and its queue field says so. */
  ghost predicate ReadyOk(k: K) {
    && NoDup(k.ready)
    && (forall t :: t in k.ready <==> t in k.tcbs && k.tcbs[t].run == Ready)
    && (forall t :: t in k.tcbs ==> (k.tcbs[t].queued <==> k.tcbs[t].run == Ready))
  }

  /** The current thread is the idle thread or a ready one. */
  ghost predicate CurrOk(k: K) {
    k.idle in k.tcbs && k.tcbs[k.idle].run == Kernel && (k.curr == k.idle || k.curr in k.ready)
  }

  /** Timed events refer to threads that exist, and wake only user threads. */
  ghost predicate EventOk(k: K, f: Func) {
    match f
    case WakeThread(t) => t in k.tcbs && k.tcbs[t].run != Kernel
    case ThreadTimer(t, ms, repeat, cookie) => t in k.tcbs
    case LogStack => true
  }

  ghost predicate EventsOk(k: K) {
    forall i :: 0 <= i < |k.events| ==> EventOk(k, k.events[i].func)
  }

  /** A thread that is blocked for a message has none. */
  ghost predicate MsgsOk(k: K) {
    forall t :: t in k.tcbs && k.tcbs[t].run == Blocked && k.tcbs[t].wait == WaitingForMsg ==> Mail(k, t) == []
  }

  /** Threads belong to processes that exist, and each process but `x`, if that is one, has its main
      thread. */
  ghost predicate TreeBut(k: K, x: nat) {
    && (forall t :: t in k.tcbs ==> ThreadOk(k, t))
    && (forall p :: p in k.pcbs ==> p != 0 && (p != x ==> MainOk(k, p)))
    && NoDup(k.order) && (forall t :: t in k.order <==> t in k.tcbs)
  }

  /** A thread belongs to a process; a kernel thread is the only thread of its process. */
  ghost predicate ThreadOk(k: K, t: nat)
    requires t in k.tcbs
  {
    && k.tcbs[t].pcb in k.pcbs && t != 0
    && (k.tcbs[t].run == Kernel ==> k.pcbs[k.tcbs[t].pcb].mainthread == t)
    && (k.pcbs[k.tcbs[t].pcb].mainthread in k.tcbs && k.tcbs[k.pcbs[k.tcbs[t].pcb].mainthread].run == Kernel
        ==> k.pcbs[k.tcbs[t].pcb].mainthread == t)
  }

  ghost predicate MainOk(k: K, p: nat)
    requires p in k.pcbs
  {
    k.pcbs[p].mainthread in k.tcbs && k.tcbs[k.pcbs[p].mainthread].pcb == p
  }

  /** Threads belong to processes that exist, and each process has its main thread. */
  ghost predicate TreeOk(k: K) {
    TreeBut(k, 0)
  }

  /** Every thread has its handle, and every thread handle its thread. */
  ghost predicate SlotsOk(k: K) {
    && |k.slots| == OS_MAXHANDLES && k.slots[0].owner == 0
    && (forall i :: 0 <= i < |k.slots| ==> SlotOk(k, i, k.slots[i]))
    && (forall t :: t in k.tcbs ==> HandleOf(k, t))
  }

  ghost predicate SlotOk(k: K, i: int, s: Slot) {
    && (s.kind == NoHandle ==> s.owner == 0)
    && (s.kind != NoHandle ==> s.owner in k.pcbs)
    && (s.kind == ThreadHandle ==> s.data in k.tcbs && k.tcbs[s.data].pcb == s.owner && k.tcbs[s.data].handle == i)
  }

  ghost predicate HandleOf(k: K, t: nat)
    requires t in k.tcbs
  {
    var h := k.tcbs[t].handle;
    0 < h < |k.slots| && k.slots[h] == Slot(ThreadHandle, k.tcbs[t].pcb, t)
  }

  /** Scheduling is in order. */
  ghost predicate SchedOk(k: K) {
    ReadyOk(k) && CurrOk(k) && EventsOk(k) && MsgsOk(k)
  }

  // ---------- the ready queue ----------

  lemma DropThread(s: seq<nat>, t: nat)
    requires NoDup(s)
    ensures NoDup(Without(s, Is(t))) && forall x :: x in Without(s, Is(t)) <==> x in s && x != t
  {
    WithoutNoDup(s, Is(t));
    forall x: nat
      ensures x in Without(s, Is(t)) <==> x in s && x != t
    {
      WithoutIn(s, Is(t), x);
    }
  }

  /** Only thread `t` may be out of step with the queue. */
  ghost predicate ReadyBut(k: K, t: nat) {
    && NoDup(k.ready)
    && (forall x :: x in k.ready <==> x in k.tcbs && k.tcbs[x].queued)
    && (forall x :: x in k.tcbs && x != t ==> (k.tcbs[x].queued <==> k.tcbs[x].run == Ready))
  }

  lemma EnqueueKeeps(k: K, t: nat, on: bool)
    requires t in k.tcbs && ReadyBut(k, t)
    ensures ReadyBut(Enqueue(k, t, on), t)
    ensures t in Enqueue(k, t, on).ready <==> on
    ensures forall x :: x != t ==> (x in Enqueue(k, t, on).ready <==> x in k.ready)
  {
    DropThread(k.ready, t);
  }

  lemma ReadyIsBut(k: K, t: nat)
    requires ReadyOk(k)
    ensures ReadyBut(k, t)
  {
  }

  lemma WakeupKeeps(k: K, t: nat)
    requires t in k.tcbs && ReadyBut(k, t) && k.tcbs[t].run != Kernel
    ensures ReadyOk(Wakeup(k, t)) && Wakeup(k, t).tcbs == k.tcbs[t := k.tcbs[t].(queued := true, run := Ready, wait := NotWaiting)]
    ensures forall x :: x in k.ready ==> x in Wakeup(k, t).ready
  {
    EnqueueKeeps(k, t, true);
  }

  lemma BlockKeeps(k: K, t: nat, tcb: Tcb)
    requires t in k.tcbs && ReadyOk(k) && tcb.run == Blocked && tcb.queued == k.tcbs[t].queued
    ensures ReadyOk(Enqueue(WithTcb(k, t, tcb), t, false))
    ensures forall x :: x != t ==> (x in Enqueue(WithTcb(k, t, tcb), t, false).ready <==> x in k.ready)
  {
    EnqueueKeeps(WithTcb(k, t, tcb), t, false);
  }

  lemma PickKeeps(k: K)
    requires ReadyOk(k) && k.idle in k.tcbs && k.tcbs[k.idle].run == Kernel
    ensures ReadyOk(PickNext(k)) && CurrOk(PickNext(k))
    ensures forall x :: x in PickNext(k).ready <==> x in k.ready
  {
    if k.ready != [] {
      var r := PickNext(k).ready;
      forall i, j | 0 <= i < j < |r|
        ensures r[i] != r[j]
      {
        assert r[i] == k.ready[i + 1];
        assert j < |r| - 1 ==> r[j] == k.ready[j + 1];
      }
      forall x
        ensures x in r <==> x in k.ready
      {
        assert k.ready == [k.ready[0]] + k.ready[1..];
      }
    }
  }

  // ---------- timers ----------

  /** Timer events among `es` for threads of process `p`. */
  ghost function Timers(tcbs: map<nat, Tcb>, es: seq<Event>, p: nat): nat {
    if es == [] then 0
    else Timers(tcbs, es[..|es| - 1], p) + if TimerOf(tcbs, es[|es| - 1].func, p) then 1 else 0
  }

  predicate TimerOf(tcbs: map<nat, Tcb>, f: Func, p: nat) {
    f.ThreadTimer? && f.tcb in tcbs && tcbs[f.tcb].pcb == p
  }

  /** Each process has at most as many pending timers as it is charged for, and at most ten. */
  ghost predicate TimersOk(k: K) {
    forall p :: p in k.pcbs ==> Timers(k.tcbs, k.events, p) <= k.pcbs[p].timers <= TIMER_MAX_TIMERS
  }

  lemma {:induction false} TimersConcat(tcbs: map<nat, Tcb>, a: seq<Event>, b: seq<Event>, p: nat)
    ensures Timers(tcbs, a + b, p) == Timers(tcbs, a, p) + Timers(tcbs, b, p)
    decreases |b|
  {
    if b == [] {
      assert a + b == a;
    } else {
      assert (a + b)[..|a + b| - 1] == a + b[..|b| - 1];
      TimersConcat(tcbs, a, b[..|b| - 1], p);
    }
  }

  lemma TimersInsert(tcbs: map<nat, Tcb>, es: seq<Event>, e: Event, p: nat)
    ensures Timers(tcbs, Insert(es, e), p) == Timers(tcbs, es, p) + if TimerOf(tcbs, e.func, p) then 1 else 0
  {
    var q := PlaceOf(es, e.time);
    assert Insert(es, e) == (es[..q] + [e]) + es[q..] && es == es[..q] + es[q..];
    TimersConcat(tcbs, es[..q] + [e], es[q..], p);
    TimersConcat(tcbs, es[..q], [e], p);
    TimersConcat(tcbs, es[..q], es[q..], p);
    assert [e][..0] == [];
  }

  /** The count depends only on which thread belongs to which process. */
  lemma {:induction false} TimersSame(a: map<nat, Tcb>, b: map<nat, Tcb>, es: seq<Event>, p: nat)
    requires a.Keys == b.Keys && forall t :: t in a ==> a[t].pcb == b[t].pcb
    ensures Timers(a, es, p) == Timers(b, es, p)
  {
    if es != [] {
      TimersSame(a, b, es[..|es| - 1], p);
    }
  }

  /** Dropping a thread's events and the thread itself leaves no more timers than there were. */
  lemma {:induction false} TimersDrop(tcbs: map<nat, Tcb>, es: seq<Event>, t: nat, p: nat)
    ensures Timers(tcbs - {t}, Without(es, Events(t)), p) <= Timers(tcbs, es, p)
  {
    if es != [] {
      var m := |es| - 1;
      TimersDrop(tcbs, es[..m], t, p);
      var w := Without(es[..m], Events(t));
      if !Events(t)(es[m]) {
        assert (w + [es[m]])[..|w + [es[m]]| - 1] == w;
      } else {
        assert Without(es, Events(t)) == w;
      }
    }
  }

  // ---------- what the operations keep ----------

  /** Threads, processes, handles and the thread list are as they were; only scheduling differs. */
  ghost predicate SameTree(k: K, r: K) {
    && SameThreads(k, r) && r.slots == k.slots && r.order == k.order && r.idle == k.idle && r.now == k.now
    && (forall t :: t in k.tcbs ==> r.tcbs[t].handle == k.tcbs[t].handle && (r.tcbs[t].run == Kernel <==> k.tcbs[t].run == Kernel))
    && (forall p :: p in k.pcbs ==> r.pcbs[p].mainthread == k.pcbs[p].mainthread)
  }

  lemma SameTreeKeeps(k: K, r: K)
    requires SameTree(k, r)
    ensures TreeOk(k) ==> TreeOk(r)
    ensures SlotsOk(k) ==> SlotsOk(r)
    ensures EventsOk(k) && r.events == k.events ==> EventsOk(r)
    ensures TimersOk(k) && r.events == k.events && r.pcbs == k.pcbs ==> TimersOk(r)
  {
    if TreeOk(k) {
      SameTrees(k, r);
    }
    if SlotsOk(k) {
      SameSlots(k, r);
    }
    if TimersOk(k) && r.events == k.events && r.pcbs == k.pcbs {
      forall p | p in r.pcbs
        ensures Timers(r.tcbs, r.events, p) <= r.pcbs[p].timers <= TIMER_MAX_TIMERS
      {
        TimersSame(k.tcbs, r.tcbs, k.events, p);
      }
    }
  }

  lemma SameTrees(k: K, r: K)
    requires SameTree(k, r) && TreeOk(k)
    ensures TreeOk(r)
  {
    forall t | t in r.tcbs
      ensures ThreadOk(r, t)
    {
      assert ThreadOk(k, t);
    }
    forall p | p in r.pcbs
      ensures p != 0 && MainOk(r, p)
    {
      assert MainOk(k, p);
    }
  }

  lemma SameSlots(k: K, r: K)
    requires SameTree(k, r) && SlotsOk(k)
    ensures SlotsOk(r)
  {
    forall i | 0 <= i < |r.slots|
      ensures SlotOk(r, i, r.slots[i])
    {
      assert SlotOk(k, i, k.slots[i]);
    }
    forall t | t in r.tcbs
      ensures HandleOf(r, t)
    {
      assert HandleOf(k, t);
    }
  }

  /** Everything. */
  ghost predicate Ok(k: K) {
    SchedOk(k) && TreeOk(k) && SlotsOk(k) && TimersOk(k) && InOrder(k)
  }

  lemma WakeupTree(k: K, t: nat)
    requires t in k.tcbs && k.tcbs[t].run != Kernel
    ensures SameTree(k, Wakeup(k, t)) && Grown(k, Nothing, Wakeup(k, t)) && Wakeup(k, t).pcbs == k.pcbs
    ensures Wakeup(k, t).curr == k.curr && Wakeup(k, t).msgs == k.msgs
  {
  }

  lemma WakeupSched(k: K, t: nat)
    requires t in k.tcbs && ReadyOk(k) && CurrOk(k) && MsgsOk(k) && k.tcbs[t].run != Kernel
    ensures ReadyOk(Wakeup(k, t)) && CurrOk(Wakeup(k, t)) && MsgsOk(Wakeup(k, t))
  {
    ReadyIsBut(k, t);
    WakeupKeeps(k, t);
    WakeupTree(k, t);
    hide Wakeup, ReadyOk;
  }

  /** Waking a user thread, whatever it waits for, keeps everything. */
  lemma WakeupOk(k: K, t: nat)
    requires Ok(k) && t in k.tcbs && k.tcbs[t].run != Kernel
    ensures Ok(Wakeup(k, t))
  {
    hide TreeBut, SlotsOk, TimersOk, EventsOk, Wakeup, Lined, ReadyOk, MsgsOk, CurrOk, SameTree;
    WakeupSched(k, t);
    WakeupTree(k, t);
    SameTreeKeeps(k, Wakeup(k, t));
  }

  lemma PickTree(k: K)
    ensures SameTree(k, PickNext(k)) && Grown(k, Nothing, PickNext(k)) && PickNext(k).pcbs == k.pcbs
    ensures PickNext(k).tcbs == k.tcbs && PickNext(k).msgs == k.msgs
  {
  }

  /** Picking another thread restores that the current one is ready or idle. */
  lemma PickOk(k: K)
    requires ReadyOk(k) && EventsOk(k) && MsgsOk(k) && TreeOk(k) && SlotsOk(k) && TimersOk(k) && InOrder(k)
    requires k.idle in k.tcbs && k.tcbs[k.idle].run == Kernel
    ensures Ok(PickNext(k))
  {
    PickKeeps(k);
    PickTree(k);
    SameTreeKeeps(k, PickNext(k));
  }

  /** A thread put to sleep or to wait, before another one is picked. */
  ghost predicate Asleep(k: K) {
    && ReadyOk(k) && EventsOk(k) && MsgsOk(k) && TreeOk(k) && SlotsOk(k) && TimersOk(k) && InOrder(k)
    && k.idle in k.tcbs && k.tcbs[k.idle].run == Kernel
  }

  lemma BlockOk(k: K, t: nat, tcb: Tcb)
    requires Ok(k) && t in k.tcbs && k.tcbs[t].run != Kernel && tcb.run == Blocked && tcb.queued == k.tcbs[t].queued
    requires tcb.pcb == k.tcbs[t].pcb && tcb.handle == k.tcbs[t].handle && (tcb.wait == WaitingForMsg ==> Mail(k, t) == [])
    ensures Asleep(Enqueue(WithTcb(k, t, tcb), t, false))
  {
    hide TreeOk, SlotsOk, TimersOk, EventsOk, Without, Lined, ReadyOk, MsgsOk, SameTree;
    var r := Enqueue(WithTcb(k, t, tcb), t, false);
    BlockKeeps(k, t, tcb);
    BlockTree(k, t, tcb);
    SameTreeKeeps(k, r);
    BlockMsgs(k, t, tcb);
  }

  lemma BlockTree(k: K, t: nat, tcb: Tcb)
    requires t in k.tcbs && k.tcbs[t].run != Kernel && tcb.run == Blocked
    requires tcb.pcb == k.tcbs[t].pcb && tcb.handle == k.tcbs[t].handle
    ensures var r := Enqueue(WithTcb(k, t, tcb), t, false); SameTree(k, r) && Grown(k, Nothing, r) && r.pcbs == k.pcbs
    ensures var r := Enqueue(WithTcb(k, t, tcb), t, false);
            k.idle in k.tcbs && k.tcbs[k.idle].run == Kernel ==> r.idle in r.tcbs && r.tcbs[r.idle].run == Kernel
  {
  }

  lemma BlockMsgs(k: K, t: nat, tcb: Tcb)
    requires MsgsOk(k) && t in k.tcbs && (tcb.wait == WaitingForMsg ==> Mail(k, t) == [])
    ensures MsgsOk(Enqueue(WithTcb(k, t, tcb), t, false))
  {
  }

  lemma AddEventOk(k: K, time: real, func: Func)
    requires Asleep(k) && EventOk(k, func) && !func.ThreadTimer?
    ensures Asleep(AddEvent(k, time, func))
  {
    hide TreeOk, SlotsOk, Lined, ReadyOk, MsgsOk, Insert, EventsOk;
    var e, r := Event(time, k.stamp, func), AddEvent(k, time, func);
    InsertOrder(k.events, e);
    AddedTree(k, time, func);
    SameTreeKeeps(k, r);
    AddedEvents(k, time, func);
    forall p | p in r.pcbs
      ensures Timers(r.tcbs, r.events, p) <= r.pcbs[p].timers <= TIMER_MAX_TIMERS
    {
      TimersInsert(k.tcbs, k.events, e, p);
    }
  }

  lemma AddedTree(k: K, time: real, func: Func)
    ensures var r := AddEvent(k, time, func);
            && SameTree(k, r) && (ReadyOk(k) ==> ReadyOk(r)) && (CurrOk(k) ==> CurrOk(r)) && (MsgsOk(k) ==> MsgsOk(r))
  {
  }

  lemma AddedEvents(k: K, time: real, func: Func)
    requires EventsOk(k) && EventOk(k, func)
    ensures EventsOk(AddEvent(k, time, func))
  {
    var e, r := Event(time, k.stamp, func), AddEvent(k, time, func);
    InsertedIn(k.events, e);
    forall i | 0 <= i < |r.events|
      ensures EventOk(r, r.events[i].func)
    {
      if r.events[i] != e {
        var j :| 0 <= j < |k.events| && k.events[j] == r.events[i];
      }
    }
  }

  /** The current thread is a user thread. */
  ghost predicate UserCall(k: K) {
    k.curr != k.idle
  }

  lemma CurrFacts(k: K)
    requires Ok(k) && UserCall(k)
    ensures k.curr in k.tcbs && k.tcbs[k.curr].run == Ready && k.tcbs[k.curr].pcb in k.pcbs
  {
    assert ThreadOk(k, k.curr);
  }

  lemma PickAsleep(k: K)
    requires Asleep(k)
    ensures Ok(PickNext(k))
  {
    PickOk(k);
  }

  /** Sleeping, also when the event to wake up by could not be queued. */
  lemma SleepOk(k: K, ms: nat, bits: nat, queued: bool)
    requires Ok(k) && UserCall(k)
    ensures k.curr in k.tcbs && Ok(PickNext(PutToSleep(k, k.curr, ms, bits, queued)))
  {
    hide Ok, Asleep, PickNext, Enqueue, AddEvent;
    CurrFacts(k);
    var t := k.curr;
    var tcb := k.tcbs[t].(run := Blocked, wait := Sleeping, mtx := bits);
    BlockOk(k, t, tcb);
    var r := Enqueue(WithTcb(k, t, tcb), t, false);
    if queued {
      BlockTree(k, t, tcb);
      AddEventOk(r, Later(k.now, ms), WakeThread(t));
    }
    PickAsleep(PutToSleep(k, t, ms, bits, queued));
  }

  /** Waiting for a mutex. */
  lemma WaitOk(k: K, h: nat)
    requires Ok(k) && UserCall(k)
    ensures k.curr in k.tcbs && Ok(PickNext(PutToWait(k, k.curr, h)))
  {
    CurrFacts(k);
    BlockOk(k, k.curr, k.tcbs[k.curr].(run := Blocked, wait := WaitingForMutex, mtx := h));
    PickAsleep(PutToWait(k, k.curr, h));
  }

  /** Waking the first thread that seems to wait for a mutex; it is never a kernel thread. */
  lemma WakeOneOk(k: K, h: nat)
    requires Ok(k)
    ensures Ok(WakeOne(k, h))
  {
    hide Ok, Wakeup;
    var i := FirstWaiting(k, 0, h);
    if i < |k.order| {
      WakeupOk(k, k.order[i]);
    }
  }

  lemma MailChange(k: K, t: nat, ms: seq<Msg>)
    requires Ok(k) && (AwaitsMsg(k, t) ==> ms == [])
    ensures Ok(WithMail(k, t, ms))
  {
    hide TreeOk, SlotsOk, TimersOk, EventsOk, ReadyOk, CurrOk, MsgsOk, Lined, SameTree;
    var r := WithMail(k, t, ms);
    MailTree(k, t, ms);
    SameTreeKeeps(k, r);
  }

  lemma MailTree(k: K, t: nat, ms: seq<Msg>)
    requires AwaitsMsg(k, t) ==> ms == []
    ensures var r := WithMail(k, t, ms);
            && SameTree(k, r) && Grown(k, Nothing, r) && r.pcbs == k.pcbs
            && (ReadyOk(k) ==> ReadyOk(r)) && (CurrOk(k) ==> CurrOk(r)) && (MsgsOk(k) ==> MsgsOk(r))
  {
  }

  /** Asking for a message: a thread is only blocked for one when it has none. */
  lemma GetMsgOk(k: K, wait: bool)
    requires Ok(k) && UserCall(k)
    ensures k.curr in k.tcbs && Ok(GetMsg(k, wait))
  {
    CurrFacts(k);
    if Mail(k, k.curr) != [] {
      MailChange(k, k.curr, Mail(k, k.curr)[1..]);
    } else if wait {
      BlockOk(k, k.curr, k.tcbs[k.curr].(run := Blocked, wait := WaitingForMsg));
      PickAsleep(WaitForMsg(k, k.curr));
    }
  }

  /** Waking a thread and appending to its queue may change places. */
  lemma SameWake(k: K, t: nat, ms: seq<Msg>)
    requires t in k.tcbs
    ensures Wakeup(WithMail(k, t, ms), t) == WithMail(Wakeup(k, t), t, ms) && !AwaitsMsg(Wakeup(k, t), t)
  {
  }

  /** Posting a message: no thread stays blocked for a message it has. */
  lemma PostOk(k: K, t: nat, m: Msg, queued: bool)
    requires Ok(k) && t in k.tcbs
    ensures Ok(Post(k, t, m, queued))
  {
    hide Ok, Wakeup, WithMail;
    var ms := Mail(k, t) + [m];
    if queued {
      if AwaitsMsg(k, t) {
        WakeupOk(k, t);
        SameWake(k, t, ms);
        MailChange(Wakeup(k, t), t, ms);
      } else {
        MailChange(k, t, ms);
      }
    }
  }

  // ---------- timers ----------

  /** Queueing a timer of process `p` and charging the process, which may have been charged for one
      timer less than it had pending. */
  lemma ChargeOk(k: K, time: real, func: Func, p: nat, n: int)
    requires SchedOk(k) && TreeOk(k) && SlotsOk(k) && InOrder(k) && EventOk(k, func)
    requires p in k.pcbs && TimerOf(k.tcbs, func, p)
    requires forall q :: q in k.pcbs && q != p ==> Timers(k.tcbs, k.events, q) <= k.pcbs[q].timers <= TIMER_MAX_TIMERS
    requires Timers(k.tcbs, k.events, p) + 1 <= n <= TIMER_MAX_TIMERS
    ensures Ok(WithTimers(AddEvent(k, time, func), p, n))
  {
    hide TreeOk, SlotsOk, EventsOk, Lined, ReadyOk, CurrOk, MsgsOk, Insert, SameTree, EventOk;
    var e, a := Event(time, k.stamp, func), AddEvent(k, time, func);
    var r := WithTimers(a, p, n);
    InsertOrder(k.events, e);
    AddedTree(k, time, func);
    SameTreeKeeps(k, a);
    AddedEvents(k, time, func);
    UnchargeTree(a, p, n);
    SameTreeKeeps(a, r);
    forall q | q in r.pcbs
      ensures Timers(r.tcbs, r.events, q) <= r.pcbs[q].timers <= TIMER_MAX_TIMERS
    {
      TimersInsert(k.tcbs, k.events, e, q);
    }
  }

  lemma ThreadFacts(k: K, t: nat)
    requires Ok(k) && t in k.tcbs
    ensures k.tcbs[t].pcb in k.pcbs && Timers(k.tcbs, k.events, k.tcbs[t].pcb) <= k.pcbs[k.tcbs[t].pcb].timers
  {
    assert ThreadOk(k, t);
  }

  /** Setting a timer. */
  lemma AddTimerOk(k: K, t: nat, ms: nat, repeat: bool, cookie: nat, queued: bool)
    requires Ok(k) && t in k.tcbs
    ensures k.tcbs[t].pcb in k.pcbs && Ok(AddTimer(k, t, ms, repeat, cookie, queued))
  {
    hide Ok, AddEvent, WithTimers;
    ThreadFacts(k, t);
    var p := k.tcbs[t].pcb;
    var m := ms % TIMER_INTERVALS;
    if k.pcbs[p].timers < TIMER_MAX_TIMERS && queued {
      ChargeMore(k, Later(k.now, m), ThreadTimer(t, m, repeat, cookie), p);
    }
  }

  lemma ChargeMore(k: K, time: real, func: Func, p: nat)
    requires Ok(k) && p in k.pcbs && TimerOf(k.tcbs, func, p) && k.pcbs[p].timers < TIMER_MAX_TIMERS
    ensures Ok(WithTimers(AddEvent(k, time, func), p, k.pcbs[p].timers + 1))
  {
    ChargeOk(k, time, func, p, k.pcbs[p].timers + 1);
  }

  // ---------- timed events ----------

  /** Process `p` is charged for its pending timers, counting the one about to be taken out. */
  ghost predicate Owes(k: K, p: nat)
    requires k.events != [] && p in k.pcbs
  {
    Timers(k.tcbs, Popped(k).events, p) + (if TimerOf(k.tcbs, Top(k).func, p) then 1 else 0)
      <= k.pcbs[p].timers <= TIMER_MAX_TIMERS
  }

  lemma PoppedOk(k: K)
    requires Ok(k) && HasDue(k)
    ensures SchedOk(Popped(k)) && TreeOk(Popped(k)) && SlotsOk(Popped(k)) && InOrder(Popped(k))
    ensures EventOk(Popped(k), Top(k).func) && HasThread(Popped(k), Top(k).func)
    ensures forall p :: p in k.pcbs ==> Owes(k, p)
  {
    assert EventOk(k, Top(k).func);
    if !Top(k).func.LogStack? {
      ThreadFacts(k, Top(k).func.tcb);
    }
    PoppedParts(k);
    forall p | p in k.pcbs
      ensures Owes(k, p)
    {
      assert Timers(k.tcbs, k.events, p) <= k.pcbs[p].timers;
    }
  }

  lemma PoppedParts(k: K)
    requires k.events != []
    ensures SameTree(k, Popped(k))
    ensures SchedOk(k) ==> SchedOk(Popped(k))
    ensures TreeOk(k) ==> TreeOk(Popped(k))
    ensures SlotsOk(k) ==> SlotsOk(Popped(k))
    ensures InOrder(k) ==> InOrder(Popped(k))
  {
    SameTreeKeeps(k, Popped(k));
  }

  lemma PoppedAllOk(k: K)
    requires Ok(k) && HasDue(k)
    ensures Ok(Popped(k))
  {
    PoppedOk(k);
    hide SchedOk, TreeOk, SlotsOk, InOrder, EventOk, Timers;
    forall p | p in k.pcbs
      ensures Timers(k.tcbs, Popped(k).events, p) <= k.pcbs[p].timers <= TIMER_MAX_TIMERS
    {
      assert Owes(k, p);
    }
  }

  /** A process is charged for one timer less once one of its timers has been taken out. */
  lemma UnchargeOk(k: K, p: nat)
    requires Ok(k) && HasDue(k) && p in k.pcbs && TimerOf(k.tcbs, Top(k).func, p)
    ensures Ok(WithTimers(Popped(k), p, k.pcbs[p].timers - 1))
  {
    PoppedOk(k);
    hide SchedOk, TreeOk, SlotsOk, InOrder, SameTree, EventOk, TimersOk, Owes;
    var d := Popped(k);
    UnchargeTree(d, p, k.pcbs[p].timers - 1);
    SameTreeKeeps(d, WithTimers(d, p, k.pcbs[p].timers - 1));
    UnchargeTimers(k, p);
  }

  lemma UnchargeTimers(k: K, p: nat)
    requires k.events != [] && p in k.pcbs && TimerOf(k.tcbs, Top(k).func, p) && forall q :: q in k.pcbs ==> Owes(k, q)
    ensures TimersOk(WithTimers(Popped(k), p, k.pcbs[p].timers - 1))
  {
    var r := WithTimers(Popped(k), p, k.pcbs[p].timers - 1);
    forall q | q in r.pcbs
      ensures Timers(r.tcbs, r.events, q) <= r.pcbs[q].timers <= TIMER_MAX_TIMERS
    {
      assert Owes(k, q);
    }
  }

  lemma UnchargeTree(k: K, p: nat, n: int)
    requires p in k.pcbs
    ensures var r := WithTimers(k, p, n);
            && SameTree(k, r) && r.tcbs == k.tcbs && r.events == k.events && r.pcbs == k.pcbs[p := k.pcbs[p].(timers := n)]
            && (SchedOk(k) ==> SchedOk(r))
  {
  }

  /** A due timer keeps everything: it is taken off its process's account, and put back on if it
      repeats. */
  lemma TimerDueOk(k: K, g: Grant)
    requires Ok(k) && HasDue(k) && Top(k).func.ThreadTimer?
    ensures HasThread(Popped(k), Top(k).func) && Ok(TimerDue(Popped(k), Top(k).func, g))
  {
    hide Ok, AddEvent, Post, EventOk, SchedOk, TreeOk, SlotsOk, InOrder, Owes, SameTree;
    PoppedOk(k);
    var f, p := Top(k).func, k.tcbs[Top(k).func.tcb].pcb;
    UnchargeOk(k, p);
    var d := WithTimers(Popped(k), p, k.pcbs[p].timers - 1);
    Room(k, p);
    if f.repeat && g.again {
      ChargeMore(d, Later(k.now, f.ms), f, p);
      AddedThreads(d, Later(k.now, f.ms), f);
    }
    PostOk(TimerAgain(Popped(k), f, g.again), f.tcb, TimerMsg(f.cookie), g.post);
  }

  lemma AddedThreads(k: K, time: real, func: Func)
    ensures AddEvent(k, time, func).tcbs == k.tcbs && AddEvent(k, time, func).pcbs == k.pcbs
  {
  }

  lemma Room(k: K, p: nat)
    requires Ok(k) && p in k.pcbs
    ensures k.pcbs[p].timers <= TIMER_MAX_TIMERS
  {
  }

  /** Running an event that is due keeps everything. */
  lemma RunEventOk(k: K, g: Grant)
    requires Ok(k) && HasDue(k)
    ensures HasThread(Popped(k), Top(k).func) && Ok(RunEvent(Popped(k), Top(k), g))
  {
    hide Ok, TimerDue, AddEvent, SchedOk, TreeOk, SlotsOk, InOrder, Timers, Wakeup, Owes;
    PoppedOk(k);
    match Top(k).func
    case WakeThread(t) =>
      PoppedAllOk(k);
      WakeupOk(Popped(k), t);
    case ThreadTimer(t, ms, repeat, cookie) => TimerDueOk(k, g);
    case LogStack =>
      PoppedAllOk(k);
      LogOk(Popped(k), k.now + 10.0);
  }

  lemma LogOk(k: K, time: real)
    requires Ok(k)
    ensures Ok(AddEvent(k, time, LogStack))
  {
    hide TreeBut, SlotsOk, TimersOk, Lined, ReadyOk, MsgsOk, EventsOk;
    AddEventOk(k, time, LogStack);
    AddedTree(k, time, LogStack);
  }

  lemma OkThreads(k: K)
    requires Ok(k)
    ensures EventsHaveThreads(k) && InOrder(k)
  {
    forall i | 0 <= i < |k.events|
      ensures HasThread(k, k.events[i].func)
    {
      assert EventOk(k, k.events[i].func);
      if !k.events[i].func.LogStack? {
        ThreadFacts(k, k.events[i].func.tcb);
      }
    }
  }

  /** Running all due events keeps everything. */
  lemma {:induction false} CheckOk(k: K, gs: seq<Grant>)
    requires Ok(k) && NoZero(k) && InOrder(k) && EventsHaveThreads(k)
    ensures Ok(CheckEvents(k, gs))
    decreases |DueList(k.events, k.now)|
  {
    hide Ok, NoZero, InOrder, EventsHaveThreads, RunEvent;
    if HasDue(k) {
      RunEventOk(k, First(gs));
      RunTakesOne(k, First(gs));
      CheckOk(RunEvent(Popped(k), Top(k), First(gs)), Rest(gs));
    }
  }
}
