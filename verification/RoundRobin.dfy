/** How long a ready thread waits for its turn. */
module RoundRobin {
  import opened RingQueue
  import opened KernelState
  import opened KernelTimers
  import opened KernelKeeps
  import opened KernelTree
  import opened KernelRuns

  /** Thread `t` is among the first `i + 1` of queue `s`. */
  ghost predicate Within(s: seq<nat>, t: nat, i: int) {
    exists j :: 0 <= j <= i && j < |s| && s[j] == t
  }

  // ---------- the ready queue ----------

  lemma {:induction false} WithoutIndex(s: seq<nat>, pred: nat -> bool, k: nat)
    requires k < |s| && !pred(s[k])
    ensures |Without(s[..k], pred)| < |Without(s, pred)| && Without(s, pred)[|Without(s[..k], pred)|] == s[k]
    decreases |s|
  {
    var m := |s| - 1;
    if k < m {
      assert s[..m][..k] == s[..k];
      WithoutIndex(s[..m], pred, k);
    }
  }

  /** Taking another thread out of the queue, and perhaps appending it, takes no thread further
      back. */
  lemma EnqueueWithin(k: K, x: nat, on: bool, t: nat, i: int)
    requires x in k.tcbs && x != t && Within(k.ready, t, i)
    ensures Within(Enqueue(k, x, on).ready, t, i)
  {
    var j :| 0 <= j <= i && j < |k.ready| && k.ready[j] == t;
    var rest := if k.tcbs[x].queued then Without(k.ready, Is(x)) else k.ready;
    if k.tcbs[x].queued {
      WithoutIndex(k.ready, Is(x), j);
      WithoutShorter(k.ready[..j], Is(x));
      assert Within(rest, t, i);
    }
    var l :| 0 <= l <= i && l < |rest| && rest[l] == t;
    assert Enqueue(k, x, on).ready[l] == t;
  }

  /** Picking gives the first thread its turn and brings all others one place closer to theirs. */
  lemma PickWithin(k: K, t: nat, i: int)
    requires Within(k.ready, t, i)
    ensures PickNext(k).curr == t || Within(PickNext(k).ready, t, i - 1)
  {
    var j :| 0 <= j <= i && j < |k.ready| && k.ready[j] == t;
    assert j > 0 ==> PickNext(k).ready[j - 1] == t;
  }

  lemma MoreWithin(s: seq<nat>, t: nat, i: int, j: int)
    requires Within(s, t, i) && i <= j
    ensures Within(s, t, j)
  {
  }

  lemma WakeupWithin(k: K, x: nat, t: nat, i: int)
    requires x in k.tcbs && x != t && Within(k.ready, t, i)
    ensures Within(Wakeup(k, x).ready, t, i)
  {
    EnqueueWithin(k, x, true, t, i);
    hide Enqueue, Within;
  }

  /** A ready thread is not blocked. */
  lemma ReadyThread(k: K, t: nat, i: int)
    requires Ok(k) && Within(k.ready, t, i)
    ensures t in k.tcbs && k.tcbs[t].run == Ready
  {
    assert t in k.ready;
  }

  lemma PostWithin(k: K, x: nat, m: Msg, queued: bool, t: nat, i: int)
    requires x in k.tcbs && Within(k.ready, t, i) && t in k.tcbs && k.tcbs[t].run == Ready
    ensures Within(Post(k, x, m, queued).ready, t, i)
  {
    hide Wakeup, Within;
    if queued && AwaitsMsg(k, x) {
      WakeupWithin(WithMail(k, x, Mail(k, x) + [m]), x, t, i);
    }
  }

  // ---------- ticks ----------

  /** A wake-up event of thread `t` that is due: left over from a sleep that ended early. */
  ghost predicate Stale(k: K, t: nat) {
    exists i :: 0 <= i < |DueList(k.events, k.now)| && DueList(k.events, k.now)[i].func == WakeThread(t)
  }

  lemma RunWithin(k: K, e: Event, g: Grant, t: nat, i: int)
    requires HasThread(k, e.func) && Within(k.ready, t, i) && t in k.tcbs && k.tcbs[t].run == Ready && e.func != WakeThread(t)
    ensures Within(RunEvent(k, e, g).ready, t, i)
  {
    hide Wakeup, Within, Post, Insert;
    match e.func
    case WakeThread(x) => WakeupWithin(k, x, t, i);
    case ThreadTimer(x, ms, repeat, cookie) => PostWithin(TimerAgain(k, e.func, g.again), x, TimerMsg(cookie), g.post, t, i);
    case LogStack =>
  }

  lemma StaleFirst(k: K, r: K, t: nat)
    requires HasDue(k) && !Stale(k, t) && r.now == k.now && DueList(k.events, k.now) == [Top(k)] + DueList(r.events, k.now)
    ensures Top(k).func != WakeThread(t) && !Stale(r, t)
  {
    var d := DueList(k.events, k.now);
    assert d[0].func != WakeThread(t);
    forall i | 0 <= i < |DueList(r.events, r.now)|
      ensures DueList(r.events, r.now)[i].func != WakeThread(t)
    {
      assert d[i + 1].func != WakeThread(t);
    }
  }

  lemma {:induction false} CheckWithin(k: K, gs: seq<Grant>, t: nat, i: int)
    requires Ok(k) && InOrder(k) && NoZero(k) && EventsHaveThreads(k) && Within(k.ready, t, i) && !Stale(k, t)
    ensures Within(CheckEvents(k, gs).ready, t, i)
    decreases |DueList(k.events, k.now)|
  {
    hide Ok, InOrder, NoZero, EventsHaveThreads, DueList, Stale, RunEvent, Within;
    if HasDue(k) {
      RunTakesOne(k, First(gs));
      RunEventOk(k, First(gs));
      var r := RunEvent(Popped(k), Top(k), First(gs));
      StaleFirst(k, r, t);
      ReadyThread(k, t, i);
      RunWithin(Popped(k), Top(k), First(gs), t, i);
      CheckWithin(r, Rest(gs), t, i);
    }
  }

  // ---------- closing handles ----------

  lemma DestroyTcbWithin(k: K, x: nat, t: nat, i: int)
    requires x in k.tcbs && x != t && Within(k.ready, t, i)
    ensures k.curr != x ==> Within(DestroyTcb(k, x).ready, t, i)
    ensures k.curr == x ==> DestroyTcb(k, x).curr == t || Within(DestroyTcb(k, x).ready, t, i - 1)
  {
    hide Enqueue, Within, PickNext, Without;
    EnqueueWithin(k, x, false, t, i);
    EnqueueFields(k, x, false);
    var q := Enqueue(k, x, false);
    PickWithin(q.(events := Without(q.events, Events(x)), order := Without(q.order, Is(x))), t, i);
  }

  lemma DestroyCurr(k: K, x: nat)
    requires x in k.tcbs
    ensures k.curr != x ==> DestroyTcb(k, x).curr == k.curr
  {
  }

  /** A current thread that is not destroyed stays the current one. */
  lemma {:induction false} HandlesCurr(k: K, p: nat, n: nat)
    ensures k.curr in DestroyHandles(k, p, n).tcbs ==> DestroyHandles(k, p, n).curr == k.curr
    decreases |k.slots| - n
  {
    hide DestroyTcb;
    if n < |k.slots| {
      if k.slots[n].owner == p {
        var s, z := k.slots[n], ResetSlot(k, n);
        if s.kind == ThreadHandle && s.data in z.tcbs {
          var d := DestroyTcb(z, s.data);
          DestroyFields(z, s.data);
          DestroyCurr(z, s.data);
          HandlesCurr(d, p, n + 1);
          HandlesShrink(d, p, n + 1);
        } else {
          HandlesCurr(z, p, n + 1);
        }
      } else {
        HandlesCurr(k, p, n + 1);
      }
    }
  }

  /** A step from `k` to `r` in which the current thread may go: then another one had its turn. */
  ghost predicate Closer(k: K, r: K, t: nat, i: int) {
    if k.curr in k.tcbs && k.curr !in r.tcbs then r.curr == t || Within(r.ready, t, i - 1) else Within(r.ready, t, i)
  }

  lemma {:induction false} HandlesWithin(k: K, p: nat, n: nat, t: nat, i: int)
    requires Within(k.ready, t, i) && t in DestroyHandles(k, p, n).tcbs
    ensures Closer(k, DestroyHandles(k, p, n), t, i)
    decreases |k.slots| - n, 0
  {
    hide DestroyTcb, Within;
    if n < |k.slots| {
      if k.slots[n].owner == p {
        var s, z := k.slots[n], ResetSlot(k, n);
        if s.kind == ThreadHandle && s.data in z.tcbs {
          DestroyFields(z, s.data);
          ThreadWithin(z, s.data, p, n + 1, t, i);
        } else {
          HandlesWithin(z, p, n + 1, t, i);
        }
      } else {
        HandlesWithin(k, p, n + 1, t, i);
      }
    }
  }

  /** The same when one thread is destroyed first. */
  lemma {:induction false} ThreadWithin(k: K, x: nat, p: nat, n: nat, t: nat, i: int)
    requires x in k.tcbs && Within(k.ready, t, i) && t in DestroyHandles(DestroyTcb(k, x), p, n).tcbs
    ensures Closer(k, DestroyHandles(DestroyTcb(k, x), p, n), t, i)
    decreases |k.slots| - n, 1
  {
    hide DestroyTcb, Within, DestroyHandles;
    var d := DestroyTcb(k, x);
    var r := DestroyHandles(d, p, n);
    DestroyFields(k, x);
    DestroyCurr(k, x);
    HandlesShrink(d, p, n);
    DestroyTcbWithin(k, x, t, i);
    HandlesCurr(d, p, n);
    if k.curr != x {
      HandlesWithin(d, p, n, t, i);
    } else if d.curr != t {
      HandlesWithin(d, p, n, t, i - 1);
      if Within(r.ready, t, i - 2) {
        MoreWithin(r.ready, t, i - 2, i - 1);
      }
    }
  }

  lemma DestroyWithin(k: K, s: Slot, t: nat, i: int)
    requires Within(k.ready, t, i) && t in Destroy(k, s).tcbs
    ensures Closer(k, Destroy(k, s), t, i)
  {
    hide DestroyTcb, Within, DestroyHandles;
    if s.kind == ThreadHandle && s.data in k.tcbs {
      var p := k.tcbs[s.data].pcb;
      DestroyFields(k, s.data);
      if p in k.pcbs && k.pcbs[p].mainthread == s.data {
        ThreadWithin(k, s.data, p, 1, t, i);
      } else {
        DestroyTcbWithin(k, s.data, t, i);
      }
    }
  }

  // ---------- steps ----------

  /** The step picks another thread to run: the current one goes to sleep, waits or is destroyed, or its
      time is up. */
  ghost predicate Picks(k: K, c: Call)
    requires Enabled(k, c)
  {
    match c
    case Sleep(ms, bits, queued) => true
    case WaitForMutex(h) => HandleData(k, h, MutexHandle) != 0
    case GetMessage(wait) => wait && Mail(k, k.curr) == []
    case CloseHandle(h) => k.curr !in Step(k, c).tcbs
    case Tick(now, gs) => true
    case _ => false
  }

  /** Thread `t` stays ready, and no stale wake-up event sends it to the end of the queue. */
  ghost predicate Undisturbed(k: K, c: Call, t: nat)
    requires Enabled(k, c)
  {
    t in Step(k, c).ready && (c.Tick? ==> !Stale(k.(now := c.now), t))
  }

  /** A current thread that is blocked is not ready any more. */
  lemma BlocksCurr(k: K, c: Call)
    requires Ok(k) && Enabled(k, c) && Picks(k, c) && (c.Sleep? || c.WaitForMutex? || c.GetMessage?)
    ensures k.curr in k.tcbs && k.curr !in Step(k, c).ready
  {
    hide Ok, HandleData, Enqueue, Insert;
    CurrFacts(k);
    StepOk(k, c);
    BlockedRun(k, c);
    NotReady(Step(k, c), k.curr);
  }

  lemma BlockedRun(k: K, c: Call)
    requires Enabled(k, c) && Picks(k, c) && (c.Sleep? || c.WaitForMutex? || c.GetMessage?) && k.curr in k.tcbs
    ensures k.curr in Step(k, c).tcbs && Step(k, c).tcbs[k.curr].run == Blocked
  {
    hide HandleData, Insert, Without;
  }

  lemma NotReady(k: K, t: nat)
    requires Ok(k) && t in k.tcbs && k.tcbs[t].run == Blocked
    ensures t !in k.ready
  {
  }

  ghost predicate PickedWithin(k: K, t: nat, i: int) {
    PickNext(k).curr == t || Within(PickNext(k).ready, t, i - 1)
  }

  /** Blocking the current thread and picking another. */
  lemma BlockWithin(k: K, ms: nat, bits: nat, h: nat, queued: bool, t: nat, i: int)
    requires k.curr in k.tcbs && Within(k.ready, t, i) && k.curr != t
    ensures PickedWithin(PutToSleep(k, k.curr, ms, bits, queued), t, i)
    ensures PickedWithin(PutToWait(k, k.curr, h), t, i)
    ensures PickedWithin(WaitForMsg(k, k.curr), t, i)
  {
    hide Enqueue, Within, PickNext, Insert;
    var c := k.tcbs[k.curr];
    EnqueueWithin(WithTcb(k, k.curr, c.(run := Blocked, wait := Sleeping, mtx := bits)), k.curr, false, t, i);
    EnqueueWithin(WithTcb(k, k.curr, c.(run := Blocked, wait := WaitingForMutex, mtx := h)), k.curr, false, t, i);
    EnqueueWithin(WithTcb(k, k.curr, c.(run := Blocked, wait := WaitingForMsg)), k.curr, false, t, i);
    PickWithin(PutToSleep(k, k.curr, ms, bits, queued), t, i);
    PickWithin(PutToWait(k, k.curr, h), t, i);
    PickWithin(WaitForMsg(k, k.curr), t, i);
  }

  lemma WakeOneWithin(k: K, h: nat, t: nat, i: int)
    requires Within(k.ready, t, i) && t in k.tcbs && k.tcbs[t].run == Ready
    ensures Within(WakeOne(k, h).ready, t, i)
  {
    hide Wakeup, Within;
    var n := FirstWaiting(k, 0, h);
    if n < |k.order| {
      WakeupWithin(k, k.order[n], t, i);
    }
  }

  lemma NewWithin(k: K, p: nat, x: nat, h: nat, t: nat, i: int)
    requires h < |k.slots| && Within(k.ready, t, i)
    ensures Within(NewTcb(k, p, x, h).ready, t, i)
  {
    var j :| 0 <= j <= i && j < |k.ready| && k.ready[j] == t;
    assert NewTcb(k, p, x, h).ready[j] == t;
  }

  lemma CloseWithin(k: K, h: nat, t: nat, i: int)
    requires Ok(k) && UserCall(k) && Within(k.ready, t, i) && t in Step(k, CloseHandle(h)).tcbs
    ensures Closer(k, Step(k, CloseHandle(h)), t, i)
  {
    hide Ok, Within, Destroy;
    CurrFacts(k);
    if 0 < h < |k.slots| {
      if k.slots[h].kind != NoHandle && k.slots[h].owner == k.tcbs[k.curr].pcb {
        DestroyWithin(ResetSlot(k, h), k.slots[h], t, i);
      }
    }
  }

  /** The state of a tick when all that is due has run. */
  ghost function Checked(k: K, now: real, gs: seq<Grant>): K
    requires NoZero(k.(now := now))
  {
    var n := k.(now := now);
    if InOrder(n) && EventsHaveThreads(n) then CheckEvents(n, gs) else k
  }

  lemma TickWithin(k: K, now: real, gs: seq<Grant>, t: nat, i: int)
    requires Ok(k) && Enabled(k, Tick(now, gs)) && Within(k.ready, t, i) && !Stale(k.(now := now), t)
    ensures PickedWithin(Checked(k, now, gs), t, i) && Step(k, Tick(now, gs)) == PickNext(Checked(k, now, gs))
  {
    hide Ok, Within, Stale, NoZero, InOrder, EventsHaveThreads, PickNext;
    NowOk(k, now);
    CheckWithin(k.(now := now), gs, t, i);
    PickWithin(Checked(k, now, gs), t, i);
  }

  /** One step: a pick gives the thread its turn or brings it closer, nothing else takes it further
      back. */
  lemma StepWithin(k: K, c: Call, t: nat, i: int)
    requires Ok(k) && Enabled(k, c) && Within(k.ready, t, i) && Undisturbed(k, c, t)
    ensures if Picks(k, c) then Step(k, c).curr == t || Within(Step(k, c).ready, t, i - 1) else Within(Step(k, c).ready, t, i)
  {
    hide Ok, Within, Stale, Destroy, AddTimer, PutToSleep, PutToWait, WakeOne, Post, NewTcb, PickNext, NoZero, InOrder,
         EventsHaveThreads, FreeSlot, HandleData, WaitForMsg, Mail;
    ReadyThread(k, t, i);
    match c
    case Sleep(ms, bits, queued) =>
      BlocksCurr(k, c);
      BlockWithin(k, ms, bits, 0, queued, t, i);
    case WaitForMutex(h) =>
      if Picks(k, c) {
        BlocksCurr(k, c);
        BlockWithin(k, 0, 0, h, false, t, i);
      }
    case GetMessage(wait) =>
      if Picks(k, c) {
        BlocksCurr(k, c);
        BlockWithin(k, 0, 0, 0, false, t, i);
      }
    case MutexUnlocked(h) => WakeOneWithin(k, h, t, i);
    case PostMessage(h, m, queued) =>
      var x := HandleData(k, h, ThreadHandle);
      if x in k.tcbs {
        PostWithin(k, x, m, queued, t, i);
      }
    case SetTimer(ms, repeat, cookie, queued) =>
      CurrFacts(k);
      TimerReady(k, ms, repeat, cookie, queued);
    case CloseHandle(h) =>
      CurrFacts(k);
      StillThere(k, c, t);
      CloseWithin(k, h, t, i);
    case CreateMutex =>
    case CreateThread(x, memory) =>
      var h := SlotForNew(k);
      if h < |k.slots| && k.curr in k.tcbs {
        NewWithin(k, k.tcbs[k.curr].pcb, x, h, t, i);
      }
    case Launch(p, x, memory) =>
      var h := SlotForNew(k);
      if h < |k.slots| {
        NewWithin(WithProcess(k, p, x), p, x, h, t, i);
      }
    case Tick(now, gs) => TickWithin(k, now, gs, t, i);
  }

  lemma TimerReady(k: K, ms: nat, repeat: bool, cookie: nat, queued: bool)
    requires k.curr in k.tcbs && k.tcbs[k.curr].pcb in k.pcbs
    ensures AddTimer(k, k.curr, ms, repeat, cookie, queued).ready == k.ready
  {
  }

  lemma StillThere(k: K, c: Call, t: nat)
    requires Ok(k) && Enabled(k, c) && t in Step(k, c).ready
    ensures t in Step(k, c).tcbs
  {
    StepOk(k, c);
    hide Step, Enabled;
  }

  // ---------- runs ----------

  /** How often a thread is picked in the first `n` steps. */
  ghost function PickCount(ks: seq<K>, cs: seq<Call>, n: nat): nat
    requires Run(ks, cs) && n <= |cs|
  {
    if n == 0 then 0 else PickCount(ks, cs, n - 1) + if Picks(ks[n - 1], cs[n - 1]) then 1 else 0
  }

  lemma {:induction false} NoTurnYet(ks: seq<K>, cs: seq<Call>, t: nat, i: nat, n: nat)
    requires Run(ks, cs) && n <= |cs| && Ok(ks[0]) && Within(ks[0].ready, t, i)
    requires forall j :: 0 <= j < n ==> Undisturbed(ks[j], cs[j], t)
    requires forall j :: 0 < j <= n ==> ks[j].curr != t
    ensures Within(ks[n].ready, t, i - PickCount(ks, cs, n))
  {
    hide Ok, Within, Undisturbed, Step, Enabled, Picks;
    if n > 0 {
      NoTurnYet(ks, cs, t, i, n - 1);
      RunOk(ks, cs, n - 1);
      assert ks[n] == Step(ks[n - 1], cs[n - 1]);
      StepWithin(ks[n - 1], cs[n - 1], t, i - PickCount(ks, cs, n - 1));
    }
  }

  lemma NotWithin(s: seq<nat>, t: nat, i: int)
    requires i < 0
    ensures !Within(s, t, i)
  {
  }

  /** In every run a thread that stands at index `i` of the ready queue has had its turn when the kernel
      has picked `i + 1` times, whatever other threads come, go, wake or are destroyed meanwhile. */
  lemma BoundedWait(ks: seq<K>, cs: seq<Call>, t: nat, i: nat, n: nat)
    requires Run(ks, cs) && n <= |cs| && Ok(ks[0]) && i < |ks[0].ready| && ks[0].ready[i] == t
    requires forall j :: 0 <= j < n ==> Undisturbed(ks[j], cs[j], t)
    requires PickCount(ks, cs, n) > i
    ensures exists j :: 0 < j <= n && ks[j].curr == t
  {
    hide Ok, Undisturbed, Step, Enabled, Picks, PickCount;
    assert Within(ks[0].ready, t, i);
    if !exists j :: 0 < j <= n && ks[j].curr == t {
      NoTurnYet(ks, cs, t, i, n);
      NotWithin(ks[n].ready, t, i - PickCount(ks, cs, n));
    }
  }
}
