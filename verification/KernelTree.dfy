/** Creating and destroying threads and processes. */
module KernelTree {
  import opened RingQueue
  import opened KernelState
  import opened KernelTimers
  import opened KernelKeeps

  // ---------- destroying a thread ----------

  lemma DropReady(k: K, t: nat)
    requires ReadyOk(k) && t in k.tcbs && k.idle in k.tcbs && k.tcbs[k.idle].run == Kernel && t != k.idle
    requires k.curr == k.idle || k.curr in k.ready
    ensures ReadyOk(DestroyTcb(k, t)) && CurrOk(DestroyTcb(k, t))
  {
    DropThread(k.ready, t);
    var q := Enqueue(k, t, false);
    var e := q.(events := Without(q.events, Events(t)), order := Without(q.order, Is(t)));
    assert forall x :: x in e.ready <==> x in k.tcbs && x != t && k.tcbs[x].run == Ready;
    if e.curr == t {
      PickRotates(e);
    }
  }

  lemma PickRotates(k: K)
    requires NoDup(k.ready)
    ensures NoDup(PickNext(k).ready) && forall x :: x in PickNext(k).ready <==> x in k.ready
    ensures PickNext(k).curr == k.idle || PickNext(k).curr in k.ready
  {
    if k.ready != [] {
      var r := PickNext(k).ready;
      forall i, j | 0 <= i < j < |r|
        ensures r[i] != r[j]
      {
        assert r[i] == k.ready[i + 1];
        assert j < |r| - 1 ==> r[j] == k.ready[j + 1];
      }
      assert k.ready == [k.ready[0]] + k.ready[1..];
    }
  }

  lemma EnqueueFields(k: K, t: nat, on: bool)
    requires t in k.tcbs
    ensures var r := Enqueue(k, t, on);
            r == k.(ready := r.ready, tcbs := k.tcbs[t := k.tcbs[t].(queued := on)])
  {
  }

  lemma PickFields(k: K)
    ensures PickNext(k) == k.(curr := PickNext(k).curr, ready := PickNext(k).ready)
  {
  }

  /** What destroying a thread leaves. */
  lemma DestroyFields(k: K, t: nat)
    requires t in k.tcbs
    ensures var r := DestroyTcb(k, t);
            && r.tcbs.Keys == k.tcbs.Keys - {t} && (forall x :: x in r.tcbs ==> r.tcbs[x] == k.tcbs[x])
            && r.pcbs == k.pcbs && r.slots == k.slots && r.idle == k.idle && r.now == k.now
            && r.events == Without(k.events, Events(t)) && r.order == Without(k.order, Is(t))
            && r.msgs == k.msgs - {t} && r.stamp == k.stamp
  {
    hide Enqueue, PickNext, Without;
    EnqueueFields(k, t, false);
    var q := Enqueue(k, t, false);
    PickFields(q.(events := Without(q.events, Events(t)), order := Without(q.order, Is(t))));
  }

  lemma DropEvents(k: K, t: nat)
    requires t in k.tcbs && EventsOk(k)
    ensures EventsOk(DestroyTcb(k, t))
  {
    DestroyFields(k, t);
    var r := DestroyTcb(k, t);
    forall i | 0 <= i < |r.events|
      ensures EventOk(r, r.events[i].func)
    {
      var e := r.events[i];
      assert e in r.events;
      WithoutIn(k.events, Events(t), e);
      var j :| 0 <= j < |k.events| && k.events[j] == e;
      assert EventOk(k, k.events[j].func);
    }
  }

  lemma {:induction false} WithoutOrder(es: seq<Event>, next: nat, pred: Event -> bool)
    requires Lined(es, next)
    ensures Lined(Without(es, pred), next)
  {
    if es != [] {
      var m := |es| - 1;
      WithoutOrder(es[..m], next, pred);
      hide Before;
      var w := Without(es[..m], pred);
      forall i | 0 <= i < |w|
        ensures Before(es[m], w[i])
      {
        assert w[i] in w;
        WithoutIn(es[..m], pred, w[i]);
        var j :| 0 <= j < m && es[j] == w[i];
      }
    }
  }

  lemma DropTree(k: K, t: nat, x: nat)
    requires t in k.tcbs && TreeBut(k, x) && (k.tcbs[t].pcb == x || k.pcbs[k.tcbs[t].pcb].mainthread != t)
    ensures TreeBut(DestroyTcb(k, t), x)
  {
    hide DestroyTcb, Without, ThreadOk, MainOk;
    DestroyFields(k, t);
    DropThread(k.order, t);
    DropThreads(k, t, x, DestroyTcb(k, t));
  }

  lemma DropThreads(k: K, t: nat, x: nat, r: K)
    requires t in k.tcbs && TreeBut(k, x) && (k.tcbs[t].pcb == x || k.pcbs[k.tcbs[t].pcb].mainthread != t)
    requires r.tcbs.Keys == k.tcbs.Keys - {t} && (forall u :: u in r.tcbs ==> r.tcbs[u] == k.tcbs[u]) && r.pcbs == k.pcbs
    ensures forall u :: u in r.tcbs ==> ThreadOk(r, u)
    ensures forall p :: p in r.pcbs ==> p != 0 && (p != x ==> MainOk(r, p))
  {
    forall u | u in r.tcbs
      ensures ThreadOk(r, u)
    {
      assert ThreadOk(k, u);
    }
    forall p | p in r.pcbs
      ensures p != 0 && (p != x ==> MainOk(r, p))
    {
      assert p != x ==> MainOk(k, p);
    }
  }

  lemma DropTimers(k: K, t: nat)
    requires t in k.tcbs && TimersOk(k)
    ensures TimersOk(DestroyTcb(k, t))
  {
    DestroyFields(k, t);
    var r := DestroyTcb(k, t);
    assert r.tcbs == k.tcbs - {t};
    forall p | p in r.pcbs
      ensures Timers(r.tcbs, r.events, p) <= r.pcbs[p].timers <= TIMER_MAX_TIMERS
    {
      TimersDrop(k.tcbs, k.events, t, p);
    }
  }

  lemma DropSlots(k: K, h: nat, t: nat)
    requires SlotsOk(k) && t in k.tcbs && k.tcbs[t].handle == h
    ensures h < |k.slots| && t in ResetSlot(k, h).tcbs && SlotsOk(DestroyTcb(ResetSlot(k, h), t))
  {
    hide DestroyTcb, Without;
    assert HandleOf(k, t);
    var z := ResetSlot(k, h);
    DestroyFields(z, t);
    var r := DestroyTcb(z, t);
    forall i | 0 <= i < |r.slots|
      ensures SlotOk(r, i, r.slots[i])
    {
      assert SlotOk(k, i, k.slots[i]);
    }
    forall u | u in r.tcbs
      ensures HandleOf(r, u)
    {
      assert HandleOf(k, u);
    }
  }

  /** In order but for the main thread of process `x`. */
  ghost predicate OkBut(k: K, x: nat) {
    SchedOk(k) && TreeBut(k, x) && SlotsOk(k) && TimersOk(k) && InOrder(k)
  }

  /** Destroying a thread, its handle first, keeps everything; if it is the main thread of process
      `x`, that process goes on without one. */
  lemma DestroyKeeps(k: K, t: nat, x: nat)
    requires OkBut(k, x) && t in k.tcbs && t != k.idle
    requires k.tcbs[t].pcb == x || (k.tcbs[t].pcb in k.pcbs && k.pcbs[k.tcbs[t].pcb].mainthread != t)
    ensures k.tcbs[t].handle < |k.slots| && t in ResetSlot(k, k.tcbs[t].handle).tcbs
    ensures OkBut(DestroyTcb(ResetSlot(k, k.tcbs[t].handle), t), x)
  {
    hide SlotsOk, Without, DestroyTcb, ResetSlot, TreeBut, TimersOk, EventsOk, ReadyOk, MsgsOk, Lined;
    var h := k.tcbs[t].handle;
    DropSlots(k, h, t);
    ResetParts(k, h, x);
    var z := ResetSlot(k, h);
    DropReady(z, t);
    DropEvents(z, t);
    DropTree(z, t, x);
    DropTimers(z, t);
    DropOrder(z, t);
    DropMsgs(z, t);
  }

  lemma DropOrder(k: K, t: nat)
    requires t in k.tcbs && InOrder(k)
    ensures InOrder(DestroyTcb(k, t))
  {
    hide DestroyTcb, Without, Lined;
    DestroyFields(k, t);
    WithoutOrder(k.events, k.stamp, Events(t));
  }

  lemma DropMsgs(k: K, t: nat)
    requires t in k.tcbs && MsgsOk(k)
    ensures MsgsOk(DestroyTcb(k, t))
  {
    hide DestroyTcb;
    DestroyFields(k, t);
  }

  lemma ResetParts(k: K, h: nat, x: nat)
    requires h < |k.slots|
    ensures var z := ResetSlot(k, h);
            && z.tcbs == k.tcbs && z.pcbs == k.pcbs && z.events == k.events && z.idle == k.idle && z.curr == k.curr && z.ready == k.ready
            && z.stamp == k.stamp && z.msgs == k.msgs
            && (SchedOk(k) ==> SchedOk(z)) && (TreeBut(k, x) ==> TreeBut(z, x)) && (TimersOk(k) ==> TimersOk(z))
  {
    var z := ResetSlot(k, h);
    if TreeBut(k, x) {
      forall t | t in z.tcbs
        ensures ThreadOk(z, t)
      {
        assert ThreadOk(k, t);
      }
      forall p | p in z.pcbs
        ensures p != 0 && (p != x ==> MainOk(z, p))
      {
        assert p != x ==> MainOk(k, p);
      }
    }
  }

  /** Resetting a slot that holds no thread. */
  lemma ResetOther(k: K, h: nat, x: nat)
    requires OkBut(k, x) && h < |k.slots| && k.slots[h].kind != ThreadHandle
    ensures OkBut(ResetSlot(k, h), x)
  {
    var z := ResetSlot(k, h);
    ResetParts(k, h, x);
    assert SlotsOk(z) by {
      forall i | 0 <= i < |z.slots|
        ensures SlotOk(z, i, z.slots[i])
      {
        assert SlotOk(k, i, k.slots[i]);
      }
      forall t | t in z.tcbs
        ensures HandleOf(z, t)
      {
        assert HandleOf(k, t);
      }
    }
  }

  // ---------- destroying a process ----------

  /** A process on its way out: its main thread is gone, and so are its handles up to slot `i`. */
  ghost predicate Dying(k: K, p: nat, i: nat) {
    && OkBut(k, p) && p in k.pcbs && k.pcbs[p].mainthread !in k.tcbs
    && forall j :: 0 <= j < i && j < |k.slots| ==> k.slots[j].owner != p
  }

  /** One slot further. */
  lemma DyingStep(k: K, p: nat, i: nat)
    requires Dying(k, p, i) && i < |k.slots|
    ensures k.slots[i].owner != p ==> Dying(k, p, i + 1)
    ensures k.slots[i].owner == p ==>
              var z := ResetSlot(k, i);
              var s := k.slots[i];
              var d := if s.kind == ThreadHandle && s.data in z.tcbs then DestroyTcb(z, s.data) else z;
              Dying(d, p, i + 1) && |d.slots| == |k.slots| && d.now == k.now && d.idle == k.idle
              && (s.kind == ThreadHandle ==> s.data in k.tcbs && k.tcbs[s.data].pcb == p)
  {
    hide DestroyTcb, OkBut;
    if k.slots[i].owner == p {
      var s := k.slots[i];
      SlotFacts(k, i, p);
      if s.kind == ThreadHandle {
        DestroyKeeps(k, s.data, p);
        DestroyFields(ResetSlot(k, i), s.data);
      } else {
        ResetOther(k, i, p);
      }
    }
  }

  lemma SlotFacts(k: K, i: nat, p: nat)
    requires OkBut(k, p) && i < |k.slots| && k.slots[i].owner == p && p in k.pcbs && k.pcbs[p].mainthread !in k.tcbs
    ensures k.slots[i].kind == ThreadHandle ==>
              k.slots[i].data in k.tcbs && k.tcbs[k.slots[i].data].pcb == p && k.tcbs[k.slots[i].data].handle == i
              && k.slots[i].data != k.idle
    ensures p != 0
  {
    var s := k.slots[i];
    assert SlotOk(k, i, s);
    if s.kind == ThreadHandle {
      assert ThreadOk(k, s.data);
    }
  }

  lemma {:induction false} DestroyHandlesKeeps(k: K, p: nat, i: nat)
    requires Dying(k, p, i) && i <= |k.slots|
    ensures var r := DestroyHandles(k, p, i);
            Dying(r, p, |r.slots|) && |r.slots| == |k.slots| && r.now == k.now && r.idle == k.idle
    decreases |k.slots| - i
  {
    hide Dying, DestroyTcb, ResetSlot;
    if i < |k.slots| {
      DyingStep(k, p, i);
      var s, z := k.slots[i], ResetSlot(k, i);
      var d := if s.kind == ThreadHandle && s.data in z.tcbs then DestroyTcb(z, s.data) else z;
      if k.slots[i].owner == p {
        DestroyHandlesKeeps(d, p, i + 1);
      } else {
        DestroyHandlesKeeps(k, p, i + 1);
      }
    }
  }

  /** With all its handles gone a process has no threads left, and can go itself. */
  lemma DyingDone(k: K, p: nat)
    requires Dying(k, p, |k.slots|)
    ensures Ok(k.(pcbs := k.pcbs - {p}))
    ensures forall t :: t in k.tcbs ==> k.tcbs[t].pcb != p
    ensures forall j :: 0 <= j < |k.slots| ==> k.slots[j].owner != p
  {
    hide TreeBut, Timers, Lined, ReadyOk, CurrOk, MsgsOk, SlotOk, EventOk;
    NoThreadLeft(k, p);
    GoneTree(k, p);
    GoneSched(k, p);
    assert TimersOk(k.(pcbs := k.pcbs - {p}));
  }

  lemma NoThreadLeft(k: K, p: nat)
    requires SlotsOk(k) && forall j :: 0 <= j < |k.slots| ==> k.slots[j].owner != p
    ensures forall t :: t in k.tcbs ==> k.tcbs[t].pcb != p
  {
    forall t | t in k.tcbs
      ensures k.tcbs[t].pcb != p
    {
      assert HandleOf(k, t);
    }
  }

  lemma GoneSched(k: K, p: nat)
    requires SchedOk(k)
    ensures SchedOk(k.(pcbs := k.pcbs - {p}))
  {
    var r := k.(pcbs := k.pcbs - {p});
    assert forall i :: 0 <= i < |r.events| ==> EventOk(k, r.events[i].func) && EventOk(r, r.events[i].func);
  }

  lemma GoneTree(k: K, p: nat)
    requires TreeBut(k, p) && SlotsOk(k) && forall t :: t in k.tcbs ==> k.tcbs[t].pcb != p
    requires forall j :: 0 <= j < |k.slots| ==> k.slots[j].owner != p
    ensures TreeOk(k.(pcbs := k.pcbs - {p})) && SlotsOk(k.(pcbs := k.pcbs - {p}))
  {
    var r := k.(pcbs := k.pcbs - {p});
    forall t | t in r.tcbs
      ensures ThreadOk(r, t)
    {
      assert ThreadOk(k, t);
    }
    forall q | q in r.pcbs
      ensures q != 0 && MainOk(r, q)
    {
      assert MainOk(k, q);
    }
    forall i | 0 <= i < |r.slots|
      ensures SlotOk(r, i, r.slots[i])
    {
      assert SlotOk(k, i, k.slots[i]);
    }
    forall t | t in r.tcbs
      ensures HandleOf(r, t)
    {
      assert HandleOf(k, t);
    }
  }

  /** The main thread of a process destroyed, its handle first. */
  lemma MainGone(k: K, p: nat)
    requires Ok(k) && p in k.pcbs && k.pcbs[p].mainthread in k.tcbs && k.pcbs[p].mainthread != k.idle
    ensures k.tcbs[k.pcbs[p].mainthread].handle < |k.slots|
    ensures var m := k.pcbs[p].mainthread;
            var z := ResetSlot(k, k.tcbs[m].handle);
            m in z.tcbs && z.pcbs == k.pcbs && Dying(DestroyTcb(z, m), p, 1)
  {
    hide Ok, OkBut, DestroyTcb, ResetSlot, Dying, SchedOk, TreeBut, TimersOk;
    var m := k.pcbs[p].mainthread;
    MainlessOk(k, p);
    DestroyKeeps(k, m, p);
    var z := ResetSlot(k, k.tcbs[m].handle);
    ResetParts(k, k.tcbs[m].handle, p);
    DestroyFields(z, m);
    DyingStart(DestroyTcb(z, m), p);
  }

  lemma DyingStart(k: K, p: nat)
    requires OkBut(k, p) && p != 0 && p in k.pcbs && k.pcbs[p].mainthread !in k.tcbs
    ensures Dying(k, p, 1)
  {
    hide OkBut;
    SlotZero(k, p);
  }

  lemma SlotZero(k: K, x: nat)
    requires OkBut(k, x)
    ensures |k.slots| == OS_MAXHANDLES && k.slots[0].owner == 0
  {
  }

  lemma MainlessOk(k: K, p: nat)
    requires Ok(k) && p in k.pcbs
    ensures OkBut(k, p) && p != 0 && k.pcbs[p].mainthread in k.tcbs && k.tcbs[k.pcbs[p].mainthread].pcb == p
  {
    MainlessTree(k, p);
    assert MainOk(k, p);
  }

  lemma DyingSlots(k: K, p: nat, i: nat)
    requires Dying(k, p, i)
    ensures |k.slots| == OS_MAXHANDLES
  {
  }

  /** Destroying a process through the handle of its main thread: it is gone, with every thread and
      every handle it had, and everything else is in order. */
  lemma DestroyProcessOk(k: K, p: nat)
    requires Ok(k) && p in k.pcbs && k.pcbs[p].mainthread in k.tcbs && k.pcbs[p].mainthread != k.idle
    ensures k.tcbs[k.pcbs[p].mainthread].handle < |k.slots|
    ensures p in ResetSlot(k, k.tcbs[k.pcbs[p].mainthread].handle).pcbs
    ensures var r := DestroyProcess(ResetSlot(k, k.tcbs[k.pcbs[p].mainthread].handle), p);
            && Ok(r) && p !in r.pcbs && (forall t :: t in r.tcbs ==> r.tcbs[t].pcb != p)
            && (forall j :: 0 <= j < |r.slots| ==> r.slots[j].owner != p)
  {
    hide Ok, Dying, DestroyTcb, ResetSlot, DestroyHandles;
    MainGone(k, p);
    var d := DestroyTcb(ResetSlot(k, k.tcbs[k.pcbs[p].mainthread].handle), k.pcbs[p].mainthread);
    DyingSlots(d, p, 1);
    DestroyHandlesKeeps(d, p, 1);
    DyingDone(DestroyHandles(d, p, 1), p);
  }

  lemma MainlessTree(k: K, p: nat)
    requires TreeOk(k)
    ensures TreeBut(k, p)
  {
    forall q | q in k.pcbs
      ensures q != 0 && (q != p ==> MainOk(k, q))
    {
      assert MainOk(k, q);
    }
  }

  // ---------- handles ----------

  lemma HandleFacts(k: K, h: nat)
    requires Ok(k) && h < |k.slots| && k.slots[h].kind == ThreadHandle
    ensures var t := k.slots[h].data;
            && t in k.tcbs && k.tcbs[t].pcb == k.slots[h].owner && k.tcbs[t].handle == h && k.tcbs[t].pcb in k.pcbs
  {
    assert SlotOk(k, h, k.slots[h]);
    ThreadFacts(k, k.slots[h].data);
  }

  /** A user thread's process has user threads only. */
  lemma UserProcess(k: K, t: nat)
    requires Ok(k) && UserCall(k) && t in k.tcbs && k.curr in k.tcbs && k.tcbs[t].pcb == k.tcbs[k.curr].pcb
    ensures t != k.idle && k.tcbs[t].run != Kernel
  {
    CurrFacts(k);
    assert ThreadOk(k, t) && ThreadOk(k, k.curr);
  }

  lemma OkIsBut(k: K)
    ensures Ok(k) <==> OkBut(k, 0)
  {
  }

  /** Closing a handle of one's own process: a thread handle destroys the thread, the main thread's
      handle the whole process, the current thread included. */
  lemma CloseOk(k: K, h: nat)
    requires Ok(k) && UserCall(k) && k.curr in k.tcbs && 0 < h < |k.slots|
    requires k.slots[h].kind != NoHandle && k.slots[h].owner == k.tcbs[k.curr].pcb
    ensures Ok(Destroy(ResetSlot(k, h), k.slots[h]))
    ensures var s, r := k.slots[h], Destroy(ResetSlot(k, h), k.slots[h]);
            s.kind == ThreadHandle ==> s.data in k.tcbs && s.data !in r.tcbs
    ensures var s, r := k.slots[h], Destroy(ResetSlot(k, h), k.slots[h]);
            s.kind == ThreadHandle && s.owner in k.pcbs && k.pcbs[s.owner].mainthread == s.data ==>
              s.owner !in r.pcbs && forall t :: t in r.tcbs ==> r.tcbs[t].pcb != s.owner
  {
    hide OkBut, DestroyProcess, DestroyTcb;
    var s := k.slots[h];
    OkIsBut(k);
    if s.kind == ThreadHandle {
      HandleFacts(k, h);
      UserProcess(k, s.data);
      hide Ok;
      var p := k.tcbs[s.data].pcb;
      if k.pcbs[p].mainthread == s.data {
        DestroyProcessOk(k, p);
        MainTaken(k, p);
      } else {
        DestroyKeeps(k, s.data, 0);
        DestroyFields(ResetSlot(k, h), s.data);
        OkIsBut(DestroyTcb(ResetSlot(k, h), s.data));
      }
    } else {
      ResetOther(k, h, 0);
      OkIsBut(ResetSlot(k, h));
    }
  }

  lemma {:induction false} HandlesShrink(k: K, p: nat, i: nat)
    ensures DestroyHandles(k, p, i).tcbs.Keys <= k.tcbs.Keys
    decreases |k.slots| - i
  {
    if i < |k.slots| {
      if k.slots[i].owner == p {
        var s, z := k.slots[i], ResetSlot(k, i);
        if s.kind == ThreadHandle && s.data in z.tcbs {
          DestroyFields(z, s.data);
          hide DestroyTcb;
          HandlesShrink(DestroyTcb(z, s.data), p, i + 1);
        } else {
          HandlesShrink(z, p, i + 1);
        }
      } else {
        HandlesShrink(k, p, i + 1);
      }
    }
  }

  /** Destroying a process takes its main thread with it. */
  lemma MainTaken(k: K, p: nat)
    requires p in k.pcbs && k.pcbs[p].mainthread in k.tcbs && k.tcbs[k.pcbs[p].mainthread].handle < |k.slots|
    ensures p in ResetSlot(k, k.tcbs[k.pcbs[p].mainthread].handle).pcbs
    ensures k.pcbs[p].mainthread !in DestroyProcess(ResetSlot(k, k.tcbs[k.pcbs[p].mainthread].handle), p).tcbs
  {
    var m := k.pcbs[p].mainthread;
    var z := ResetSlot(k, k.tcbs[m].handle);
    DestroyFields(z, m);
    HandlesShrink(DestroyTcb(z, m), p, 1);
  }

  // ---------- creating ----------

  lemma NewReady(k: K, p: nat, t: nat, h: nat)
    requires SchedOk(k) && t !in k.tcbs && h < |k.slots|
    ensures SchedOk(NewTcb(k, p, t, h))
  {
    var r := NewTcb(k, p, t, h);
    assert r.ready == k.ready + [t];
    forall i | 0 <= i < |r.events|
      ensures EventOk(r, r.events[i].func)
    {
      assert EventOk(k, k.events[i].func);
    }
  }

  lemma NewFields(k: K, p: nat, t: nat, h: nat)
    requires h < |k.slots|
    ensures var r := NewTcb(k, p, t, h);
            && r.tcbs == k.tcbs[t := Tcb(p, Ready, true, NotWaiting, 0, h)] && r.pcbs == k.pcbs && r.order == k.order + [t]
            && r.slots == k.slots[h := Slot(ThreadHandle, p, t)] && r.events == k.events && r.idle == k.idle
            && r.stamp == k.stamp && r.msgs == k.msgs[t := []]
  {
  }

  lemma NewSlots(k: K, p: nat, t: nat, h: nat)
    requires SlotsOk(k) && t !in k.tcbs && p in k.pcbs && 0 < h < |k.slots| && k.slots[h].kind == NoHandle
    ensures SlotsOk(NewTcb(k, p, t, h))
  {
    NewFields(k, p, t, h);
    var r := NewTcb(k, p, t, h);
    hide NewTcb;
    forall i | 0 <= i < |r.slots|
      ensures SlotOk(r, i, r.slots[i])
    {
      assert SlotOk(k, i, k.slots[i]);
    }
    forall u | u in r.tcbs
      ensures HandleOf(r, u)
    {
      assert u != t ==> HandleOf(k, u);
    }
  }

  /** A thread may be added to a process whose main thread is no kernel thread. */
  lemma NewTree(k: K, p: nat, t: nat, h: nat, x: nat)
    requires TreeBut(k, x) && t !in k.tcbs && t != 0 && p in k.pcbs && h < |k.slots|
    requires k.pcbs[p].mainthread in k.tcbs ==> k.tcbs[k.pcbs[p].mainthread].run != Kernel
    requires forall u :: u in k.tcbs ==> k.pcbs[k.tcbs[u].pcb].mainthread != t
    requires x != 0 ==> x == p && k.pcbs[p].mainthread == t
    ensures TreeOk(NewTcb(k, p, t, h))
  {
    NewFields(k, p, t, h);
    var r := NewTcb(k, p, t, h);
    hide NewTcb;
    forall u | u in r.tcbs
      ensures ThreadOk(r, u)
    {
      assert u != t ==> ThreadOk(k, u);
    }
    forall q | q in r.pcbs
      ensures q != 0 && MainOk(r, q)
    {
      assert q != x ==> MainOk(k, q);
    }
  }

  lemma {:induction false} TimersNew(tcbs: map<nat, Tcb>, es: seq<Event>, t: nat, tcb: Tcb, p: nat)
    requires t !in tcbs && forall i :: 0 <= i < |es| && es[i].func.ThreadTimer? ==> es[i].func.tcb != t
    ensures Timers(tcbs[t := tcb], es, p) == Timers(tcbs, es, p)
  {
    if es != [] {
      TimersNew(tcbs, es[..|es| - 1], t, tcb, p);
    }
  }

  lemma NewTimers(k: K, p: nat, t: nat, h: nat)
    requires TimersOk(k) && EventsOk(k) && t !in k.tcbs && h < |k.slots|
    ensures TimersOk(NewTcb(k, p, t, h))
  {
    NewFields(k, p, t, h);
    var r := NewTcb(k, p, t, h);
    hide NewTcb;
    forall i | 0 <= i < |k.events| && k.events[i].func.ThreadTimer?
      ensures k.events[i].func.tcb != t
    {
      assert EventOk(k, k.events[i].func);
    }
    forall q | q in r.pcbs
      ensures Timers(r.tcbs, r.events, q) <= r.pcbs[q].timers <= TIMER_MAX_TIMERS
    {
      TimersNew(k.tcbs, k.events, t, Tcb(p, Ready, true, NotWaiting, 0, h), q);
    }
  }

  lemma MainsExist(k: K, t: nat)
    requires TreeOk(k) && t !in k.tcbs
    ensures forall u :: u in k.tcbs ==> k.tcbs[u].pcb in k.pcbs && k.pcbs[k.tcbs[u].pcb].mainthread != t
  {
    forall u | u in k.tcbs
      ensures k.tcbs[u].pcb in k.pcbs && k.pcbs[k.tcbs[u].pcb].mainthread != t
    {
      assert ThreadOk(k, u);
      assert MainOk(k, k.tcbs[u].pcb);
    }
  }

  /** The current process gains a thread. */
  lemma NewThreadOk(k: K, t: nat, h: nat)
    requires Ok(k) && UserCall(k) && k.curr in k.tcbs && t !in k.tcbs && t != 0
    requires 0 < h < |k.slots| && k.slots[h].kind == NoHandle
    ensures Ok(NewTcb(k, k.tcbs[k.curr].pcb, t, h))
  {
    CurrFacts(k);
    var p := k.tcbs[k.curr].pcb;
    MainsExist(k, t);
    assert ThreadOk(k, k.curr);
    NewFields(k, p, t, h);
    hide SchedOk, TreeBut, SlotsOk, TimersOk, Lined, NewTcb, EventsOk;
    NewReady(k, p, t, h);
    NewTree(k, p, t, h, 0);
    NewSlots(k, p, t, h);
    NewTimers(k, p, t, h);
  }

  /** A process as it is made, in front of its main thread. */
  function WithProcess(k: K, p: nat, t: nat): K {
    k.(pcbs := k.pcbs[p := Pcb(t, 0)])
  }

  lemma WithProcessTree(k: K, p: nat, t: nat)
    requires Ok(k) && p !in k.pcbs && p != 0
    ensures TreeBut(WithProcess(k, p, t), p)
  {
    var w := WithProcess(k, p, t);
    forall u | u in w.tcbs
      ensures ThreadOk(w, u)
    {
      assert ThreadOk(k, u);
    }
    forall q | q in w.pcbs
      ensures q != 0 && (q != p ==> MainOk(w, q))
    {
      assert q != p ==> MainOk(k, q);
    }
  }

  lemma WithProcessSlots(k: K, p: nat, t: nat)
    requires SlotsOk(k)
    ensures SlotsOk(WithProcess(k, p, t))
  {
    var w := WithProcess(k, p, t);
    forall i | 0 <= i < |w.slots|
      ensures SlotOk(w, i, w.slots[i])
    {
      assert SlotOk(k, i, k.slots[i]);
    }
    forall u | u in w.tcbs
      ensures HandleOf(w, u)
    {
      assert HandleOf(k, u);
    }
  }

  lemma WithProcessParts(k: K, p: nat, t: nat)
    requires Ok(k) && p !in k.pcbs && p != 0
    ensures var w := WithProcess(k, p, t); SchedOk(w) && TreeBut(w, p) && SlotsOk(w) && InOrder(w)
  {
    hide TreeBut, SlotsOk;
    var w := WithProcess(k, p, t);
    WithProcessTree(k, p, t);
    WithProcessSlots(k, p, t);
    forall i | 0 <= i < |w.events|
      ensures EventOk(w, w.events[i].func)
    {
      assert EventOk(k, k.events[i].func);
    }
  }

  lemma {:induction false} NoTimers(tcbs: map<nat, Tcb>, es: seq<Event>, p: nat)
    requires forall t :: t in tcbs ==> tcbs[t].pcb != p
    ensures Timers(tcbs, es, p) == 0
  {
    if es != [] {
      NoTimers(tcbs, es[..|es| - 1], p);
    }
  }

  lemma WithProcessTimers(k: K, p: nat, t: nat)
    requires Ok(k) && p !in k.pcbs
    ensures TimersOk(WithProcess(k, p, t))
  {
    var w := WithProcess(k, p, t);
    forall u | u in k.tcbs
      ensures k.tcbs[u].pcb != p
    {
      assert ThreadOk(k, u);
    }
    NoTimers(k.tcbs, k.events, p);
  }

  /** A new process with its main thread. */
  lemma NewProcessOk(k: K, p: nat, t: nat, h: nat)
    requires Ok(k) && p !in k.pcbs && p != 0 && t !in k.tcbs && t != 0
    requires 0 < h < |k.slots| && k.slots[h].kind == NoHandle
    ensures Ok(NewTcb(WithProcess(k, p, t), p, t, h))
  {
    var w := WithProcess(k, p, t);
    WithProcessParts(k, p, t);
    WithProcessTimers(k, p, t);
    MainsExist(k, t);
    NewFields(w, p, t, h);
    NewProcessMains(k, p, t);
    hide SchedOk, TreeBut, SlotsOk, TimersOk, Lined, NewTcb, EventsOk, Ok;
    NewReady(w, p, t, h);
    NewTree(w, p, t, h, p);
    NewSlots(w, p, t, h);
    NewTimers(w, p, t, h);
    OkIsParts(NewTcb(w, p, t, h));
  }

  lemma OkIsParts(k: K)
    requires SchedOk(k) && TreeOk(k) && SlotsOk(k) && TimersOk(k) && InOrder(k)
    ensures Ok(k)
  {
  }

  lemma NewProcessMains(k: K, p: nat, t: nat)
    requires Ok(k) && p !in k.pcbs && t !in k.tcbs
    ensures var w := WithProcess(k, p, t);
            EventsOk(w) && forall u :: u in w.tcbs ==> w.tcbs[u].pcb in w.pcbs && w.pcbs[w.tcbs[u].pcb].mainthread != t
  {
    MainsExist(k, t);
    var w := WithProcess(k, p, t);
    forall u | u in w.tcbs
      ensures w.tcbs[u].pcb in w.pcbs && w.pcbs[w.tcbs[u].pcb].mainthread != t
    {
      assert ThreadOk(k, u);
    }
    forall i | 0 <= i < |w.events|
      ensures EventOk(w, w.events[i].func)
    {
      assert EventOk(k, k.events[i].func);
    }
  }
}
