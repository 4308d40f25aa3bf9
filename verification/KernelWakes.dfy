/** What happens to the queue of timed events in every run: which sleeping threads will be woken, and
    when the kernel gets through with what is due. */
module KernelWakes {
  import opened RingQueue
  import opened KernelState
  import opened KernelTimers
  import opened KernelKeeps
  import opened KernelTree
  import opened KernelRuns

  /** What the queued events do. */
  function FuncsOf(es: seq<Event>): set<Func> {
    set i | 0 <= i < |es| :: es[i].func
  }

  lemma FuncsInsert(es: seq<Event>, e: Event)
    ensures FuncsOf(Insert(es, e)) == FuncsOf(es) + {e.func}
  {
    var r, p := Insert(es, e), PlaceOf(es, e.time);
    forall i | 0 <= i < |es|
      ensures es[i].func in FuncsOf(r)
    {
      assert r[if i < p then i else i + 1] == es[i];
    }
    assert r[p] == e;
    forall i | 0 <= i < |r|
      ensures r[i].func in FuncsOf(es) + {e.func}
    {
      assert r[i] == if i < p then es[i] else if i == p then e else es[i - 1];
    }
  }

  lemma FuncsLast(es: seq<Event>)
    requires es != []
    ensures FuncsOf(es) == FuncsOf(es[..|es| - 1]) + {es[|es| - 1].func}
  {
    var f := es[..|es| - 1];
    forall i | 0 <= i < |es|
      ensures es[i].func in FuncsOf(f) + {es[|es| - 1].func}
    {
      assert i < |f| ==> f[i] == es[i];
    }
    forall i | 0 <= i < |f|
      ensures f[i].func in FuncsOf(es)
    {
      assert f[i] == es[i];
    }
  }

  lemma FuncsWithout(es: seq<Event>, t: nat)
    ensures FuncsOf(Without(es, Events(t))) <= FuncsOf(es)
    ensures forall u :: u != t && WakeThread(u) in FuncsOf(es) ==> WakeThread(u) in FuncsOf(Without(es, Events(t)))
  {
    var w := Without(es, Events(t));
    forall i | 0 <= i < |w|
      ensures w[i].func in FuncsOf(es)
    {
      assert w[i] in w;
      WithoutIn(es, Events(t), w[i]);
      var j :| 0 <= j < |es| && es[j] == w[i];
    }
    forall u | u != t && WakeThread(u) in FuncsOf(es)
      ensures WakeThread(u) in FuncsOf(w)
    {
      var i :| 0 <= i < |es| && es[i].func == WakeThread(u);
      WithoutIn(es, Events(t), es[i]);
      var j :| 0 <= j < |w| && w[j] == es[i];
    }
  }

  predicate Sleeps(k: K, t: nat) {
    t in k.tcbs && k.tcbs[t].run == Blocked && k.tcbs[t].wait == Sleeping
  }

  /** An event that wakes thread `t` is queued. */
  predicate Pending(k: K, t: nat) {
    WakeThread(t) in FuncsOf(k.events)
  }

  /** No event that was not there before, no thread that falls asleep, and none that loses the event
      it will be woken by. */
  ghost predicate Quiet(k: K, r: K) {
    && FuncsOf(r.events) <= FuncsOf(k.events)
    && forall t :: Sleeps(r, t) ==> Sleeps(k, t) && (Pending(k, t) ==> Pending(r, t))
  }

  lemma Quieter(k: K, m: K, r: K)
    requires Quiet(k, m) && Quiet(m, r)
    ensures Quiet(k, r)
  {
    hide FuncsOf, Sleeps;
  }

  lemma SameQuiet(k: K, r: K)
    requires r.events == k.events && forall t :: Sleeps(r, t) ==> Sleeps(k, t)
    ensures Quiet(k, r)
  {
  }

  lemma WakeupQuiet(k: K, t: nat)
    requires t in k.tcbs
    ensures Quiet(k, Wakeup(k, t)) && !Sleeps(Wakeup(k, t), t)
  {
    SameQuiet(k, Wakeup(k, t));
  }

  lemma PostQuiet(k: K, t: nat, m: Msg, queued: bool)
    requires t in k.tcbs
    ensures Quiet(k, Post(k, t, m, queued))
  {
    hide Wakeup;
    if queued {
      var p := WithMail(k, t, Mail(k, t) + [m]);
      SameQuiet(k, p);
      if AwaitsMsg(k, t) {
        WakeupQuiet(p, t);
        Quieter(k, p, Wakeup(p, t));
      }
    } else {
      SameQuiet(k, k);
    }
  }

  lemma PickQuiet(k: K)
    ensures Quiet(k, PickNext(k))
  {
    SameQuiet(k, PickNext(k));
  }

  /** Blocking for something else than sleep. */
  lemma BlockQuiet(k: K, h: nat)
    requires k.curr in k.tcbs
    ensures Quiet(k, PickNext(PutToWait(k, k.curr, h))) && Quiet(k, PickNext(WaitForMsg(k, k.curr)))
  {
    SameQuiet(k, PutToWait(k, k.curr, h));
    SameQuiet(k, WaitForMsg(k, k.curr));
    PickQuiet(PutToWait(k, k.curr, h));
    PickQuiet(WaitForMsg(k, k.curr));
    hide PickNext, PutToWait, WaitForMsg, Quiet;
    Quieter(k, PutToWait(k, k.curr, h), PickNext(PutToWait(k, k.curr, h)));
    Quieter(k, WaitForMsg(k, k.curr), PickNext(WaitForMsg(k, k.curr)));
  }

  // ---------- running what is due ----------

  /** What a due timer leaves before it posts its message. */
  lemma AgainSleeps(k: K, f: Func, queued: bool)
    requires f.ThreadTimer? && f.tcb in k.tcbs && k.tcbs[f.tcb].pcb in k.pcbs
    ensures forall t :: Sleeps(TimerAgain(k, f, queued), t) <==> Sleeps(k, t)
  {
    hide Insert;
  }

  lemma RunSleeps(k: K, e: Event, g: Grant)
    requires HasThread(k, e.func)
    ensures forall t :: Sleeps(RunEvent(k, e, g), t) ==> Sleeps(k, t) && e.func != WakeThread(t)
  {
    hide Insert, FuncsOf, Wakeup, Post, TimerAgain, Sleeps;
    match e.func
    case WakeThread(t) => WakeupQuiet(k, t);
    case ThreadTimer(t, ms, repeat, cookie) =>
      AgainThread(k, e.func, g.again);
      AgainSleeps(k, e.func, g.again);
      PostQuiet(TimerAgain(k, e.func, g.again), t, TimerMsg(cookie), g.post);
    case LogStack => LogSleeps(k);
  }

  lemma AgainThread(k: K, f: Func, queued: bool)
    requires f.ThreadTimer? && f.tcb in k.tcbs && k.tcbs[f.tcb].pcb in k.pcbs
    ensures f.tcb in TimerAgain(k, f, queued).tcbs
  {
  }

  lemma LogSleeps(k: K)
    ensures forall t :: Sleeps(AddEvent(k, k.now + 10.0, LogStack), t) <==> Sleeps(k, t)
  {
    hide Insert;
  }

  /** Running the event that is due next: it may be queued again, and the thread it wakes is awake. */
  lemma RunQuiet(k: K, g: Grant)
    requires HasDue(k) && HasThread(Popped(k), Top(k).func)
    ensures Quiet(k, RunEvent(Popped(k), Top(k), g))
  {
    hide RunEvent, FuncsOf, Sleeps, Insert;
    var p, e := Popped(k), Top(k);
    var r := RunEvent(p, e, g);
    RunEventFacts(p, e, g);
    RunSleeps(p, e, g);
    FuncsLast(k.events);
    AddedFuncs(p, e, g);
    PoppedSleeps(k);
  }

  lemma AddedFuncs(k: K, e: Event, g: Grant)
    ensures FuncsOf(k.events) <= FuncsOf(With(k.events, Adds(k, e, g))) <= FuncsOf(k.events) + {e.func}
  {
    var m := Adds(k, e, g);
    if m.One? {
      FuncsInsert(k.events, m.e);
    }
  }

  lemma PoppedSleeps(k: K)
    requires k.events != []
    ensures forall t :: Sleeps(Popped(k), t) <==> Sleeps(k, t)
  {
  }

  lemma {:induction false} CheckQuiet(k: K, gs: seq<Grant>)
    requires InOrder(k) && NoZero(k) && EventsHaveThreads(k)
    ensures Quiet(k, CheckEvents(k, gs))
    decreases |DueList(k.events, k.now)|
  {
    hide Quiet, RunEvent, InOrder, NoZero, EventsHaveThreads, DueList;
    if HasDue(k) {
      RunTakesOne(k, First(gs));
      RunQuiet(k, First(gs));
      CheckQuiet(RunEvent(Popped(k), Top(k), First(gs)), Rest(gs));
      Quieter(k, RunEvent(Popped(k), Top(k), First(gs)), CheckEvents(k, gs));
    } else {
      SameQuiet(k, k);
    }
  }

  // ---------- destroying and creating ----------

  lemma DestroyTcbQuiet(k: K, t: nat)
    requires t in k.tcbs
    ensures Quiet(k, DestroyTcb(k, t))
  {
    hide DestroyTcb, Without, FuncsOf;
    DestroyFields(k, t);
    FuncsWithout(k.events, t);
  }

  lemma ResetQuiet(k: K, i: nat)
    requires i < |k.slots|
    ensures Quiet(k, ResetSlot(k, i))
  {
    SameQuiet(k, ResetSlot(k, i));
  }

  lemma {:induction false} HandlesQuiet(k: K, p: nat, i: nat)
    ensures Quiet(k, DestroyHandles(k, p, i))
    decreases |k.slots| - i
  {
    hide DestroyTcb, Quiet;
    SameQuiet(k, k);
    if i < |k.slots| {
      if k.slots[i].owner == p {
        var s, z := k.slots[i], ResetSlot(k, i);
        ResetQuiet(k, i);
        if s.kind == ThreadHandle && s.data in z.tcbs {
          DestroyFields(z, s.data);
          DestroyTcbQuiet(z, s.data);
          Quieter(k, z, DestroyTcb(z, s.data));
          HandlesQuiet(DestroyTcb(z, s.data), p, i + 1);
          Quieter(k, DestroyTcb(z, s.data), DestroyHandles(k, p, i));
        } else {
          HandlesQuiet(z, p, i + 1);
          Quieter(k, z, DestroyHandles(k, p, i));
        }
      } else {
        HandlesQuiet(k, p, i + 1);
      }
    }
  }

  lemma DestroyQuiet(k: K, s: Slot)
    ensures Quiet(k, Destroy(k, s))
  {
    hide DestroyTcb, Quiet, DestroyHandles;
    SameQuiet(k, k);
    if s.kind == ThreadHandle && s.data in k.tcbs {
      var p, d := k.tcbs[s.data].pcb, DestroyTcb(k, s.data);
      DestroyTcbQuiet(k, s.data);
      DestroyFields(k, s.data);
      if p in k.pcbs && k.pcbs[p].mainthread == s.data {
        var h := DestroyHandles(d, p, 1);
        HandlesQuiet(d, p, 1);
        Quieter(k, d, h);
        WithoutProcessQuiet(h, p);
        Quieter(k, h, Destroy(k, s));
      }
    }
  }

  lemma WithoutProcessQuiet(k: K, p: nat)
    ensures Quiet(k, k.(pcbs := k.pcbs - {p}))
  {
    SameQuiet(k, k.(pcbs := k.pcbs - {p}));
  }

  lemma NewQuiet(k: K, p: nat, t: nat, h: nat)
    requires h < |k.slots|
    ensures Quiet(k, NewTcb(k, p, t, h)) && Quiet(k, NewTcb(WithProcess(k, p, t), p, t, h))
  {
    hide NewTcb;
    NewFields(k, p, t, h);
    NewFields(WithProcess(k, p, t), p, t, h);
    SameQuiet(k, NewTcb(k, p, t, h));
    SameQuiet(k, NewTcb(WithProcess(k, p, t), p, t, h));
  }

  lemma WakeOneQuiet(k: K, h: nat)
    ensures Quiet(k, WakeOne(k, h))
  {
    hide Wakeup, Quiet;
    SameQuiet(k, k);
    var i := FirstWaiting(k, 0, h);
    if i < |k.order| {
      WakeupQuiet(k, k.order[i]);
    }
  }

  lemma GetMsgQuiet(k: K, wait: bool)
    requires k.curr in k.tcbs
    ensures Quiet(k, GetMsg(k, wait))
  {
    hide Quiet, PickNext, WaitForMsg, Sleeps;
    SameQuiet(k, k);
    BlockQuiet(k, 0);
    MailQuiet(k, k.curr);
  }

  lemma MailQuiet(k: K, t: nat)
    ensures Mail(k, t) != [] ==> Quiet(k, WithMail(k, t, Mail(k, t)[1..]))
  {
    if Mail(k, t) != [] {
      SameQuiet(k, WithMail(k, t, Mail(k, t)[1..]));
    }
  }

  lemma TickQuiet(k: K, now: real, gs: seq<Grant>)
    requires Ok(k) && NoZero(k.(now := now))
    ensures Quiet(k, Step(k, Tick(now, gs)))
  {
    hide Quiet, PickNext, InOrder, EventsHaveThreads, NoZero, Ok, Sleeps;
    var n := k.(now := now);
    NowOk(k, now);
    NowQuiet(k, now);
    CheckQuiet(n, gs);
    Quieter(k, n, CheckEvents(n, gs));
    PickQuiet(CheckEvents(n, gs));
    Quieter(k, CheckEvents(n, gs), PickNext(CheckEvents(n, gs)));
  }

  lemma NowQuiet(k: K, now: real)
    ensures Quiet(k, k.(now := now))
  {
    SameQuiet(k, k.(now := now));
  }

  lemma SlotsQuiet(k: K, slots: seq<Slot>)
    ensures Quiet(k, k.(slots := slots))
  {
    SameQuiet(k, k.(slots := slots));
  }

  /** Only going to sleep and setting a timer queue new events. */
  lemma StepQuiet(k: K, c: Call)
    requires Ok(k) && Enabled(k, c) && !c.Sleep? && !c.SetTimer?
    ensures Quiet(k, Step(k, c))
  {
    hide Ok, Quiet, PutToWait, WakeOne, GetMsg, Post, Destroy, NewTcb, PickNext, NoZero, InOrder, EventsHaveThreads, FreeSlot, HandleData,
         UserCall;
    SameQuiet(k, k);
    match c
    case Tick(now, gs) => TickQuiet(k, now, gs);
    case WaitForMutex(h) =>
      if k.curr in k.tcbs {
        BlockQuiet(k, h);
      }
    case MutexUnlocked(h) => WakeOneQuiet(k, h);
    case GetMessage(wait) =>
      if k.curr in k.tcbs {
        GetMsgQuiet(k, wait);
      }
    case PostMessage(h, m, queued) =>
      var t := HandleData(k, h, ThreadHandle);
      if t in k.tcbs {
        PostQuiet(k, t, m, queued);
      }
    case CloseHandle(h) =>
      if h < |k.slots| {
        ResetQuiet(k, h);
        DestroyQuiet(ResetSlot(k, h), k.slots[h]);
        Quieter(k, ResetSlot(k, h), Destroy(ResetSlot(k, h), k.slots[h]));
      }
    case CreateMutex => SlotsQuiet(k, Step(k, c).slots);
    case CreateThread(t, memory) =>
      var h := SlotForNew(k);
      if h < |k.slots| && k.curr in k.tcbs {
        NewQuiet(k, k.tcbs[k.curr].pcb, t, h);
      }
    case Launch(p, t, memory) =>
      var h := SlotForNew(k);
      if h < |k.slots| {
        NewQuiet(k, p, t, h);
      }
  }

  // ---------- sleeping ----------

  /** Every sleeping thread has an event to wake up by. */
  ghost predicate SleepersWake(k: K) {
    forall t :: Sleeps(k, t) ==> Pending(k, t)
  }

  /** The current thread goes to sleep, its event finds no room and no memory, and no earlier one is
      still queued. */
  predicate LosesWake(k: K, c: Call) {
    c.Sleep? && !c.queued && !Pending(k, k.curr)
  }

  /** Going to sleep puts the thread to sleep in any case.  It has an event to wake up by exactly if
      that could be queued or an earlier one is still there. */
  lemma SleepWakes(k: K, ms: nat, bits: nat, queued: bool)
    requires Ok(k) && UserCall(k)
    ensures var r := Step(k, Sleep(ms, bits, queued));
            && Sleeps(r, k.curr) && (Pending(r, k.curr) <==> queued || Pending(k, k.curr))
            && forall t :: t != k.curr ==> (Sleeps(r, t) <==> Sleeps(k, t)) && (Pending(r, t) <==> Pending(k, t))
  {
    hide Ok, FuncsOf, Insert, Without;
    CurrFacts(k);
    FuncsInsert(k.events, Event(Later(k.now, ms), k.stamp, WakeThread(k.curr)));
    SleepFields(k, ms, bits, queued);
    hide Step;
  }

  lemma SleepFields(k: K, ms: nat, bits: nat, queued: bool)
    requires k.curr in k.tcbs && UserCall(k)
    ensures var r := Step(k, Sleep(ms, bits, queued));
            && r.tcbs == k.tcbs[k.curr := k.tcbs[k.curr].(run := Blocked, wait := Sleeping, mtx := bits, queued := false)]
            && r.events == if queued then Insert(k.events, Event(Later(k.now, ms), k.stamp, WakeThread(k.curr))) else k.events
  {
    hide Insert, Without;
  }

  /** Whether every sleeping thread has an event to wake up by only depends on this. */
  lemma StepWakes(k: K, c: Call)
    requires Ok(k) && Enabled(k, c) && SleepersWake(k)
    ensures SleepersWake(Step(k, c)) <==> !LosesWake(k, c)
  {
    hide Ok, Step, Sleeps, Pending, Insert;
    match c
    case Sleep(ms, bits, queued) => SleepWakes(k, ms, bits, queued);
    case SetTimer(ms, repeat, cookie, queued) => TimerWakes(k, ms, repeat, cookie, queued);
    case _ => StepQuiet(k, c);
  }

  lemma TimerWakes(k: K, ms: nat, repeat: bool, cookie: nat, queued: bool)
    requires Ok(k) && UserCall(k)
    ensures var r := Step(k, SetTimer(ms, repeat, cookie, queued));
            forall t :: (Sleeps(r, t) <==> Sleeps(k, t)) && (Pending(r, t) <==> Pending(k, t))
  {
    hide Ok, Insert, FuncsOf;
    CurrFacts(k);
    var m := ms % TIMER_INTERVALS;
    FuncsInsert(k.events, Event(Later(k.now, m), k.stamp, ThreadTimer(k.curr, m, repeat, cookie)));
  }

  /** In a run every sleeping thread always has an event to wake up by if and only if nothing of that
      kind happens. */
  lemma {:induction false} RunWakes(ks: seq<K>, cs: seq<Call>, n: nat)
    requires Run(ks, cs) && n <= |cs| && Ok(ks[0]) && SleepersWake(ks[0])
    ensures (forall i :: 0 <= i <= n ==> SleepersWake(ks[i])) <==> forall i :: 0 <= i < n ==> !LosesWake(ks[i], cs[i])
  {
    hide Ok, Step, Enabled, SleepersWake, LosesWake;
    if n > 0 {
      RunWakes(ks, cs, n - 1);
      RunOk(ks, cs, n - 1);
      assert ks[n] == Step(ks[n - 1], cs[n - 1]);
      if SleepersWake(ks[n - 1]) {
        StepWakes(ks[n - 1], cs[n - 1]);
      }
    }
  }

  // ---------- timers without interval ----------

  /** Every repeating timer has an interval. */
  ghost predicate AllMove(k: K) {
    forall f :: f in FuncsOf(k.events) ==> Moves(f)
  }

  /** A repeating timer without interval is set: 31 bits of the interval are kept. */
  predicate ZeroSet(k: K, c: Call) {
    && c.SetTimer? && c.queued && c.repeat && c.ms % TIMER_INTERVALS == 0
    && k.curr in k.tcbs && k.tcbs[k.curr].pcb in k.pcbs && k.pcbs[k.tcbs[k.curr].pcb].timers < TIMER_MAX_TIMERS
  }

  lemma StepMoves(k: K, c: Call)
    requires Ok(k) && Enabled(k, c) && AllMove(k)
    ensures AllMove(Step(k, c)) <==> !ZeroSet(k, c)
  {
    hide Ok, Step, FuncsOf, Moves, Insert, Enabled;
    match c
    case Sleep(ms, bits, queued) => SleepMoves(k, ms, bits, queued);
    case SetTimer(ms, repeat, cookie, queued) => TimerMoves(k, ms, repeat, cookie, queued);
    case _ => StepQuiet(k, c);
  }

  lemma SleepMoves(k: K, ms: nat, bits: nat, queued: bool)
    requires Ok(k) && Enabled(k, Sleep(ms, bits, queued)) && AllMove(k)
    ensures AllMove(Step(k, Sleep(ms, bits, queued)))
  {
    hide Ok, Step, FuncsOf, Insert;
    CurrFacts(k);
    SleepFields(k, ms, bits, queued);
    FuncsInsert(k.events, Event(Later(k.now, ms), k.stamp, WakeThread(k.curr)));
  }

  lemma TimerMoves(k: K, ms: nat, repeat: bool, cookie: nat, queued: bool)
    requires Ok(k) && Enabled(k, SetTimer(ms, repeat, cookie, queued)) && AllMove(k)
    ensures AllMove(Step(k, SetTimer(ms, repeat, cookie, queued))) <==> !ZeroSet(k, SetTimer(ms, repeat, cookie, queued))
  {
    hide Ok, FuncsOf, Insert;
    CurrFacts(k);
    var m := ms % TIMER_INTERVALS;
    FuncsInsert(k.events, Event(Later(k.now, m), k.stamp, ThreadTimer(k.curr, m, repeat, cookie)));
  }

  /** In a run every repeating timer always has an interval if and only if none is set without one. */
  lemma {:induction false} RunMoves(ks: seq<K>, cs: seq<Call>, n: nat)
    requires Run(ks, cs) && n <= |cs| && Ok(ks[0]) && AllMove(ks[0])
    ensures (forall i :: 0 <= i <= n ==> AllMove(ks[i])) <==> forall i :: 0 <= i < n ==> !ZeroSet(ks[i], cs[i])
  {
    hide Ok, Step, Enabled, AllMove, ZeroSet;
    if n > 0 {
      RunMoves(ks, cs, n - 1);
      RunOk(ks, cs, n - 1);
      assert ks[n] == Step(ks[n - 1], cs[n - 1]);
      if AllMove(ks[n - 1]) {
        StepMoves(ks[n - 1], cs[n - 1]);
      }
    }
  }

  /** Then every tick gets through with what is due, at whatever time. */
  lemma MovesTick(k: K, now: real, gs: seq<Grant>)
    requires AllMove(k)
    ensures Enabled(k, Tick(now, gs))
  {
    assert forall i :: 0 <= i < |k.events| ==> k.events[i].func in FuncsOf(k.events);
  }

  /** After a call that sets one, the loop over due events does not end as long as there is memory to
      queue the timer again: an event is still due after any number of rounds. */
  lemma ZeroNeverThrough(k: K, c: Call, gs: seq<Grant>)
    requires Ok(k) && Enabled(k, c) && ZeroSet(k, c) && !HasStuck(k)
    requires forall i :: 0 <= i < |gs| ==> gs[i].again
    ensures HasDue(Looped(Step(k, c), gs))
  {
    hide Ok, AddTimer, HasStuck, HasDue, Looped, InOrder, EventsHaveThreads;
    OkThreads(k);
    StepOk(k, c);
    OkThreads(Step(k, c));
    var r := AddTimer(k, k.curr, c.ms, true, c.cookie, true);
    TimerClock(k, c.ms, c.cookie);
    SameNow(k);
    SameNow(r);
    ZeroTimer(k, k.curr, c.ms, true, c.cookie, k.now);
    NeverThrough(r, gs);
  }

  lemma TimerClock(k: K, ms: nat, cookie: nat)
    requires k.curr in k.tcbs && k.tcbs[k.curr].pcb in k.pcbs
    ensures AddTimer(k, k.curr, ms, true, cookie, true).now == k.now
  {
  }

  lemma SameNow(k: K)
    ensures k.(now := k.now) == k
  {
  }

  // ---------- runs that lose something ----------

  /** One process with one thread, which is current. */
  function UserRuns(): K {
    K(map[1 := Tcb(1, Kernel, false, NotWaiting, 0, 1), 2 := Tcb(2, Ready, true, NotWaiting, 0, 2)],
      map[1 := Pcb(1, 0), 2 := Pcb(2, 0)], map[1 := [], 2 := []], [1, 2], [2], [Event(10.0, 0, LogStack)],
      seq(OS_MAXHANDLES, i => if i == 1 then Slot(ThreadHandle, 1, 1) else if i == 2 then Slot(ThreadHandle, 2, 2) else EMPTY),
      2, 1, 0.0, 1)
  }

  ghost function Launched(): K {
    Step(Boot(1, 1, 0.0), Launch(2, 2, true))
  }

  lemma LaunchedIs()
    ensures Launched() == UserRuns().(curr := 1)
  {
    var k := Boot(1, 1, 0.0);
    var w := WithProcess(k, 2, 2);
    assert FreeSlot(k.slots, 2) == 2;
    NewFields(w, 2, 2, 2);
    assert NewTcb(w, 2, 2, 2).ready == [2];
    assert Launched().slots == UserRuns().slots;
    assert Launched().tcbs == UserRuns().tcbs;
    assert Launched().pcbs == UserRuns().pcbs;
    assert Launched().msgs == UserRuns().msgs;
  }

  /** A tick before anything is due only picks the next thread. */
  lemma QuietTick(k: K, gs: seq<Grant>)
    requires Ok(k) && !HasDue(k)
    ensures Enabled(k, Tick(k.now, gs)) && Step(k, Tick(k.now, gs)) == PickNext(k)
  {
    hide Ok, InOrder, EventsHaveThreads, PickNext;
    OkThreads(k);
    NothingDue(k);
    SameNow(k);
  }

  /** The kernel gets there from its start. */
  lemma UserRunsReached()
    ensures Run([Boot(1, 1, 0.0), Launched(), UserRuns()], [Launch(2, 2, true), Tick(0.0, [])])
    ensures Ok(UserRuns())
  {
    hide Ok, Boot;
    var b, k := Boot(1, 1, 0.0), Launched();
    BootOk(1, 1, 0.0);
    BootFits();
    StepOk(b, Launch(2, 2, true));
    LaunchedIs();
    QuietTick(k, []);
    PickedIs();
    StepOk(k, Tick(0.0, []));
    hide Step, Enabled, UserRuns;
  }

  lemma BootFits()
    ensures Enabled(Boot(1, 1, 0.0), Launch(2, 2, true))
  {
  }

  lemma PickedIs()
    ensures PickNext(UserRuns().(curr := 1)) == UserRuns()
  {
    assert [2][1..] + [2] == [2];
  }

  /** A message is lost there: the queue of the thread has no buffer yet and there is no memory for
      one. */
  lemma MessageLost(m: Msg)
    ensures Enabled(UserRuns(), PostMessage(2, m, false))
    ensures PostedTo(UserRuns(), PostMessage(2, m, false), 2) == [m]
    ensures Refused(UserRuns(), PostMessage(2, m, false), 2)
    ensures Mail(Step(UserRuns(), PostMessage(2, m, false)), 2) == []
  {
    assert UserRuns().slots[2] == Slot(ThreadHandle, 2, 2);
  }

  /** The thread goes to sleep there and will not be woken. */
  lemma WakeLost(ms: nat, bits: nat)
    ensures Enabled(UserRuns(), Sleep(ms, bits, false))
    ensures SleepersWake(UserRuns()) && LosesWake(UserRuns(), Sleep(ms, bits, false))
    ensures var r := Step(UserRuns(), Sleep(ms, bits, false)); Sleeps(r, 2) && !Pending(r, 2)
  {
    hide Ok, Step;
    UserRunsReached();
    assert forall f :: f in FuncsOf(UserRuns().events) ==> f == LogStack;
    SleepWakes(UserRuns(), ms, bits, false);
  }

  /** The thread sets a timer there that the kernel does not get through with. */
  lemma ZeroCanBeSet(cookie: nat)
    ensures Enabled(UserRuns(), SetTimer(0, true, cookie, true)) && ZeroSet(UserRuns(), SetTimer(0, true, cookie, true))
    ensures !HasStuck(UserRuns())
  {
  }
}
