/** Kernel calls and scheduler ticks as steps, and what every run of them keeps. */
module KernelRuns {
  import opened RingQueue
  import opened KernelState
  import opened KernelTimers
  import opened KernelKeeps
  import opened KernelTree

  /** A call of the current thread, or an interrupt of the kernel's own.  `bits` is what a sleep time
      leaves in the wait data; `t` and `p` are the addresses new objects get; `memory` says whether
      there is memory for what is asked, `queued` whether a full queue could grow for a new event or
      message, and a tick says it of every event that is due. */
  datatype Call =
    | Sleep(ms: nat, bits: nat, queued: bool)
    | WaitForMutex(h: nat)
    | MutexUnlocked(h: nat)
    | GetMessage(wait: bool)
    | PostMessage(h: nat, m: Msg, queued: bool)
    | SetTimer(ms: nat, repeat: bool, cookie: nat, queued: bool)
    | CloseHandle(h: nat)
    | CreateMutex
    | CreateThread(t: nat, memory: bool)
    | Launch(p: nat, t: nat, memory: bool)
    | Tick(now: real, gs: seq<Grant>)

  /** The data of a handle of the current process, of the given kind. */
  function HandleData(k: K, h: nat, kind: HandleType): nat {
    if 0 < h < |k.slots| && k.slots[h].kind != NoHandle && k.curr in k.tcbs
       && k.slots[h].owner == k.tcbs[k.curr].pcb && k.slots[h].kind == kind
    then k.slots[h].data else 0
  }

  /** A slot for a new handle, 0 when all are taken. */
  function SlotForNew(k: K): nat {
    if |k.slots| == 0 then 0
    else
      var i := FreeSlot(k.slots, 1);
      if i < |k.slots| then i else 0
  }

  /** Calls are made by user threads; new objects have addresses of their own; and a tick finds no due
      timer that repeats without an interval. */
  ghost predicate Enabled(k: K, c: Call) {
    match c
    case Tick(now, gs) => NoZero(k.(now := now))
    case Launch(p, t, memory) => p !in k.pcbs && p != 0 && t !in k.tcbs && t != 0
    case CreateThread(t, memory) => UserCall(k) && t !in k.tcbs && t != 0
    case _ => UserCall(k)
  }

  ghost function Step(k: K, c: Call): K
    requires Enabled(k, c)
  {
    match c
    case Sleep(ms, bits, queued) => if k.curr in k.tcbs then PickNext(PutToSleep(k, k.curr, ms, bits, queued)) else k
    case WaitForMutex(h) =>
      if k.curr in k.tcbs && HandleData(k, h, MutexHandle) != 0 then PickNext(PutToWait(k, k.curr, h)) else k
    case MutexUnlocked(h) => if HandleData(k, h, MutexHandle) != 0 then WakeOne(k, h) else k
    case GetMessage(wait) => if k.curr in k.tcbs then GetMsg(k, wait) else k
    case PostMessage(h, m, queued) =>
      var t := HandleData(k, h, ThreadHandle);
      if t != 0 && t in k.tcbs then Post(k, t, m, queued) else k
    case SetTimer(ms, repeat, cookie, queued) =>
      if k.curr in k.tcbs && k.tcbs[k.curr].pcb in k.pcbs then AddTimer(k, k.curr, ms, repeat, cookie, queued) else k
    case CloseHandle(h) =>
      if 0 < h < |k.slots| && k.slots[h].kind != NoHandle && k.curr in k.tcbs && k.slots[h].owner == k.tcbs[k.curr].pcb
      then Destroy(ResetSlot(k, h), k.slots[h]) else k
    case CreateMutex =>
      var h := SlotForNew(k);
      if h != 0 && h < |k.slots| && k.curr in k.tcbs
      then k.(slots := k.slots[h := Slot(MutexHandle, k.tcbs[k.curr].pcb, k.curr)]) else k
    case CreateThread(t, memory) =>
      var h := SlotForNew(k);
      if memory && h != 0 && h < |k.slots| && k.curr in k.tcbs then NewTcb(k, k.tcbs[k.curr].pcb, t, h) else k
    case Launch(p, t, memory) =>
      var h := SlotForNew(k);
      if memory && h != 0 && h < |k.slots| then NewTcb(WithProcess(k, p, t), p, t, h) else k
    case Tick(now, gs) =>
      var n := k.(now := now);
      if InOrder(n) && EventsHaveThreads(n) then PickNext(CheckEvents(n, gs)) else k
  }

  /** One step leads from `k` to `r`. */
  ghost predicate Does(k: K, c: Call, r: K) {
    Enabled(k, c) && r == Step(k, c)
  }

  /** Clock and handles aside, nothing has changed. */
  ghost predicate SameWorld(k: K, r: K) {
    r == k.(now := r.now, slots := r.slots)
  }

  lemma SameWorldTree(k: K, r: K)
    requires SameWorld(k, r) && TreeOk(k)
    ensures TreeOk(r)
  {
    forall t | t in r.tcbs
      ensures ThreadOk(r, t)
    {
      assert ThreadOk(k, t);
    }
    forall p | p in r.pcbs
      ensures p != 0 && MainOk(r, p)
    {
      assert MainOk(k, p);
    }
  }

  lemma SameWorldSched(k: K, r: K)
    requires SameWorld(k, r) && SchedOk(k)
    ensures SchedOk(r)
  {
    assert forall i :: 0 <= i < |r.events| ==> EventOk(k, r.events[i].func) && EventOk(r, r.events[i].func);
  }

  lemma SameWorldOk(k: K, r: K)
    requires SameWorld(k, r) && Ok(k) && SlotsOk(r)
    ensures Ok(r)
  {
    hide TreeBut, SchedOk, SlotsOk, Timers, Lined;
    SameWorldTree(k, r);
    SameWorldSched(k, r);
  }

  lemma NowOk(k: K, now: real)
    requires Ok(k)
    ensures Ok(k.(now := now)) && InOrder(k.(now := now)) && EventsHaveThreads(k.(now := now))
  {
    hide TreeBut, SchedOk, SlotsOk, TimersOk, Lined, EventsHaveThreads, SlotOk;
    NowSlots(k, now);
    SameWorldOk(k, k.(now := now));
    OkThreads(k.(now := now));
  }

  lemma NowSlots(k: K, now: real)
    requires SlotsOk(k)
    ensures SlotsOk(k.(now := now))
  {
    var r := k.(now := now);
    assert forall i :: 0 <= i < |r.slots| ==> SlotOk(k, i, r.slots[i]) && SlotOk(r, i, r.slots[i]);
    assert forall t :: t in r.tcbs ==> HandleOf(k, t) && HandleOf(r, t);
  }

  lemma MutexSlotOk(k: K, h: nat)
    requires Ok(k) && UserCall(k) && k.curr in k.tcbs && 0 < h < |k.slots| && k.slots[h].kind == NoHandle
    ensures Ok(k.(slots := k.slots[h := Slot(MutexHandle, k.tcbs[k.curr].pcb, k.curr)]))
  {
    hide TreeBut, SchedOk, TimersOk, Lined, SlotsOk;
    CurrFacts(k);
    NewSlotOk(k, h, Slot(MutexHandle, k.tcbs[k.curr].pcb, k.curr));
    SameWorldOk(k, k.(slots := k.slots[h := Slot(MutexHandle, k.tcbs[k.curr].pcb, k.curr)]));
  }

  lemma NewSlotOk(k: K, h: nat, s: Slot)
    requires SlotsOk(k) && 0 < h < |k.slots| && k.slots[h].kind == NoHandle && s.kind == MutexHandle && s.owner in k.pcbs
    ensures SlotsOk(k.(slots := k.slots[h := s]))
  {
    var r := k.(slots := k.slots[h := s]);
    forall t | t in r.tcbs
      ensures HandleOf(r, t)
    {
      assert HandleOf(k, t);
    }
    forall i | 0 <= i < |r.slots|
      ensures SlotOk(r, i, r.slots[i])
    {
      assert SlotOk(k, i, k.slots[i]);
    }
  }

  lemma OkIsAsleep(k: K)
    requires Ok(k)
    ensures Asleep(k)
  {
  }

  /** Every step keeps everything. */
  lemma StepOk(k: K, c: Call)
    requires Ok(k) && Enabled(k, c)
    ensures Ok(Step(k, c))
  {
    hide Ok, PickNext, PutToSleep, PutToWait, WakeOne, GetMsg, Post, AddTimer, Destroy, NewTcb, ResetSlot, WithProcess, NoZero,
         InOrder, EventsHaveThreads, Asleep, UserCall;
    match c
    case Sleep(ms, bits, queued) => SleepOk(k, ms, bits, queued);
    case WaitForMutex(h) => WaitOk(k, h);
    case MutexUnlocked(h) => WakeOneOk(k, h);
    case GetMessage(wait) => GetMsgOk(k, wait);
    case PostMessage(h, m, queued) =>
      var t := HandleData(k, h, ThreadHandle);
      if t != 0 && t in k.tcbs {
        PostOk(k, t, m, queued);
      }
    case SetTimer(ms, repeat, cookie, queued) =>
      CurrFacts(k);
      AddTimerOk(k, k.curr, ms, repeat, cookie, queued);
    case CloseHandle(h) =>
      if 0 < h < |k.slots| && k.slots[h].kind != NoHandle && k.curr in k.tcbs && k.slots[h].owner == k.tcbs[k.curr].pcb {
        CloseOk(k, h);
      }
    case CreateMutex =>
      var h := SlotForNew(k);
      if h != 0 && h < |k.slots| && k.curr in k.tcbs {
        MutexSlotOk(k, h);
      }
    case CreateThread(t, memory) =>
      var h := SlotForNew(k);
      if memory && h != 0 && h < |k.slots| && k.curr in k.tcbs {
        NewThreadOk(k, t, h);
      }
    case Launch(p, t, memory) =>
      var h := SlotForNew(k);
      if memory && h != 0 && h < |k.slots| {
        NewProcessOk(k, p, t, h);
      }
    case Tick(now, gs) =>
      var n := k.(now := now);
      NowOk(k, now);
      CheckOk(n, gs);
      OkIsAsleep(CheckEvents(n, gs));
      PickAsleep(CheckEvents(n, gs));
  }

  // ---------- runs ----------

  ghost predicate Run(ks: seq<K>, cs: seq<Call>) {
    |ks| == |cs| + 1 && forall i :: 0 <= i < |cs| ==> Enabled(ks[i], cs[i]) && ks[i + 1] == Step(ks[i], cs[i])
  }

  /** The kernel after it has started: the idle process with its one kernel thread. */
  function Boot(t: nat, p: nat, now: real): K {
    K(map[t := Tcb(p, Kernel, false, NotWaiting, 0, 1)], map[p := Pcb(t, 0)], map[t := []], [t], [],
      [Event(now + 10.0, 0, LogStack)],
      seq(OS_MAXHANDLES, i => if i == 1 then Slot(ThreadHandle, p, t) else EMPTY), t, t, now, 1)
  }

  lemma BootOk(t: nat, p: nat, now: real)
    requires t != 0 && p != 0
    ensures Ok(Boot(t, p, now))
  {
    var k := Boot(t, p, now);
    assert ThreadOk(k, t) && MainOk(k, p) && HandleOf(k, t);
    assert Timers(k.tcbs, k.events, p) == 0 by {
      assert k.events[..0] == [];
    }
  }

  /** What a reader of the kernel's state relies on. */
  ghost predicate Sane(k: K) {
    // a user thread is ready exactly if it is in the ready queue, where it is once
    && NoDup(k.ready) && (forall t :: t in k.ready <==> t in k.tcbs && k.tcbs[t].run == Ready)
    // what runs is the idle thread or a ready one
    && k.idle in k.tcbs && (k.curr == k.idle || k.curr in k.ready)
    // no event refers to a thread that is gone
    && (forall i :: 0 <= i < |k.events| && !k.events[i].func.LogStack? ==> k.events[i].func.tcb in k.tcbs)
    // no message wake-up is lost
    && (forall t :: t in k.tcbs && k.tcbs[t].run == Blocked && k.tcbs[t].wait == WaitingForMsg ==> Mail(k, t) == [])
    // timers
    && (forall p :: p in k.pcbs ==> Timers(k.tcbs, k.events, p) <= k.pcbs[p].timers <= TIMER_MAX_TIMERS)
    // no handle refers to a thread that is gone
    && (forall i :: 0 <= i < |k.slots| && k.slots[i].kind == ThreadHandle ==> k.slots[i].data in k.tcbs)
  }

  lemma OkIsSane(k: K)
    requires Ok(k)
    ensures Sane(k)
  {
    forall i | 0 <= i < |k.events| && !k.events[i].func.LogStack?
      ensures k.events[i].func.tcb in k.tcbs
    {
      assert EventOk(k, k.events[i].func);
    }
    forall i | 0 <= i < |k.slots| && k.slots[i].kind == ThreadHandle
      ensures k.slots[i].data in k.tcbs
    {
      assert SlotOk(k, i, k.slots[i]);
    }
  }

  lemma {:induction false} RunOk(ks: seq<K>, cs: seq<Call>, n: nat)
    requires Run(ks, cs) && n < |ks| && Ok(ks[0])
    ensures Ok(ks[n])
  {
    hide Ok, Step, Enabled;
    if n > 0 {
      RunOk(ks, cs, n - 1);
      assert ks[n] == Step(ks[n - 1], cs[n - 1]);
      StepOk(ks[n - 1], cs[n - 1]);
    }
  }

  /** In every run from the start of the kernel on, whatever is called, created and destroyed in
      whatever order. */
  lemma RunSane(ks: seq<K>, cs: seq<Call>, t: nat, p: nat, now: real, n: nat)
    requires t != 0 && p != 0 && Run(ks, cs) && ks[0] == Boot(t, p, now) && n < |ks|
    ensures Ok(ks[n]) && Sane(ks[n])
  {
    BootOk(t, p, now);
    RunOk(ks, cs, n);
    OkIsSane(ks[n]);
  }

  /** A tick runs exactly the events that are due, in the order of their times and, at the same time,
      in the order in which they were queued, and leaves none. */
  lemma TickRunsDue(k: K, now: real, gs: seq<Grant>)
    requires Ok(k) && NoZero(k.(now := now))
    ensures var n, due := k.(now := now), DueList(k.events, now);
            && InOrder(n) && EventsHaveThreads(n) && Executed(n, gs) == due
            && (forall i, j :: 0 <= i < j < |due| ==>
                  due[i].time < due[j].time || (due[i].time == due[j].time && due[i].stamp < due[j].stamp))
    ensures forall i :: 0 <= i < |Step(k, Tick(now, gs)).events| ==> Step(k, Tick(now, gs)).events[i].time > now
  {
    hide RunEvent, DueList, PickNext, NoZero, EventsHaveThreads, Ok, Lined, Before;
    var n := k.(now := now);
    NowOk(k, now);
    RunsWhatIsDue(n, gs);
    DueOrder(k.events, k.stamp, now);
    PickTree(CheckEvents(n, gs));
    DueBefore(DueList(k.events, now));
  }

  lemma DueBefore(due: seq<Event>)
    requires forall i, j :: 0 <= i < j < |due| ==> Before(due[i], due[j])
    ensures forall i, j :: 0 <= i < j < |due| ==>
              due[i].time < due[j].time || (due[i].time == due[j].time && due[i].stamp < due[j].stamp)
  {
  }

  // ---------- messages ----------

  function GrantAt(gs: seq<Grant>, i: nat): Grant {
    if i < |gs| then gs[i] else Grant(false, false)
  }

  /** Whether an event posts to thread `t`. */
  predicate TimerFor(e: Event, t: nat) {
    e.func.ThreadTimer? && e.func.tcb == t
  }

  /** The messages that the events run by a tick post to thread `t`. */
  function Posts(es: seq<Event>, t: nat): seq<Msg> {
    if es == [] then []
    else (if TimerFor(es[0], t) then [TimerMsg(es[0].func.cookie)] else []) + Posts(es[1..], t)
  }

  /** Those of them for which there was room or memory. */
  function Pushes(es: seq<Event>, gs: seq<Grant>, t: nat): seq<Msg>
    decreases |es|
  {
    if es == [] then []
    else (if TimerFor(es[0], t) && First(gs).post then [TimerMsg(es[0].func.cookie)] else []) + Pushes(es[1..], Rest(gs), t)
  }

  /** The events a tick runs. */
  ghost function Ran(k: K, now: real, gs: seq<Grant>): seq<Event>
    requires NoZero(k.(now := now))
  {
    var n := k.(now := now);
    if InOrder(n) && EventsHaveThreads(n) then Executed(n, gs) else []
  }

  /** The messages a step posts to thread `t`. */
  ghost function PostedTo(k: K, c: Call, t: nat): seq<Msg>
    requires Enabled(k, c)
  {
    match c
    case PostMessage(h, m, queued) => if HandleData(k, h, ThreadHandle) == t && t != 0 then [m] else []
    case Tick(now, gs) => Posts(Ran(k, now, gs), t)
    case _ => []
  }

  /** Those of them that are queued. */
  ghost function QueuedFor(k: K, c: Call, t: nat): seq<Msg>
    requires Enabled(k, c)
  {
    match c
    case PostMessage(h, m, queued) => if HandleData(k, h, ThreadHandle) == t && t != 0 && queued then [m] else []
    case Tick(now, gs) => Pushes(Ran(k, now, gs), gs, t)
    case _ => []
  }

  /** A step posts a message to thread `t` that its queue cannot take. */
  ghost predicate Refused(k: K, c: Call, t: nat)
    requires Enabled(k, c)
  {
    match c
    case PostMessage(h, m, queued) => HandleData(k, h, ThreadHandle) == t && t != 0 && !queued
    case Tick(now, gs) => exists i :: 0 <= i < |Ran(k, now, gs)| && TimerFor(Ran(k, now, gs)[i], t) && !GrantAt(gs, i).post
    case _ => false
  }

  /** The message thread `t` receives in a step. */
  function ReceivedBy(k: K, c: Call, t: nat): seq<Msg> {
    if c.GetMessage? && k.curr == t && t in k.tcbs && Mail(k, t) != [] then [Mail(k, t)[0]] else []
  }

  lemma WakeupMail(k: K, t: nat)
    requires t in k.tcbs
    ensures Wakeup(k, t).msgs == k.msgs
  {
  }

  lemma PostMail(k: K, x: nat, m: Msg, queued: bool, t: nat)
    requires x in k.tcbs
    ensures Mail(Post(k, x, m, queued), t) == Mail(k, t) + if x == t && queued then [m] else []
  {
    hide Wakeup;
    if queued && AwaitsMsg(k, x) {
      WakeupMail(WithMail(k, x, Mail(k, x) + [m]), x);
    }
  }

  lemma RunEventMail(k: K, e: Event, g: Grant, t: nat)
    requires HasThread(k, e.func)
    ensures Mail(RunEvent(k, e, g), t) == Mail(k, t) + if TimerFor(e, t) && g.post then [TimerMsg(e.func.cookie)] else []
  {
    hide Wakeup, Post, Insert;
    match e.func
    case WakeThread(x) => WakeupMail(k, x);
    case ThreadTimer(x, ms, repeat, cookie) => PostMail(TimerAgain(k, e.func, g.again), x, TimerMsg(cookie), g.post, t);
    case LogStack =>
  }

  lemma {:induction false} CheckMail(k: K, gs: seq<Grant>, t: nat)
    requires InOrder(k) && NoZero(k) && EventsHaveThreads(k)
    ensures Mail(CheckEvents(k, gs), t) == Mail(k, t) + Pushes(Executed(k, gs), gs, t)
    decreases |DueList(k.events, k.now)|
  {
    hide RunEvent, NoZero, InOrder, EventsHaveThreads, DueList, Mail, TimerFor;
    if HasDue(k) {
      RunTakesOne(k, First(gs));
      var r := RunEvent(Popped(k), Top(k), First(gs));
      RunEventMail(Popped(k), Top(k), First(gs), t);
      PoppedMail(k, t);
      CheckMail(r, Rest(gs), t);
      assert ([Top(k)] + Executed(r, Rest(gs)))[1..] == Executed(r, Rest(gs));
    }
  }

  lemma PoppedMail(k: K, t: nat)
    requires k.events != []
    ensures Mail(Popped(k), t) == Mail(k, t)
  {
  }

  lemma {:induction false} HandlesMail(k: K, p: nat, i: nat, t: nat)
    ensures DestroyHandles(k, p, i).tcbs.Keys <= k.tcbs.Keys
    ensures t in DestroyHandles(k, p, i).tcbs ==> Mail(DestroyHandles(k, p, i), t) == Mail(k, t)
    decreases |k.slots| - i
  {
    hide DestroyTcb;
    if i < |k.slots| {
      if k.slots[i].owner == p {
        var s, z := k.slots[i], ResetSlot(k, i);
        if s.kind == ThreadHandle && s.data in z.tcbs {
          DestroyFields(z, s.data);
          HandlesMail(DestroyTcb(z, s.data), p, i + 1, t);
        } else {
          HandlesMail(z, p, i + 1, t);
        }
      } else {
        HandlesMail(k, p, i + 1, t);
      }
    }
  }

  lemma DestroyMail(k: K, s: Slot, t: nat)
    ensures t in Destroy(k, s).tcbs ==> Mail(Destroy(k, s), t) == Mail(k, t)
  {
    hide DestroyTcb, DestroyHandles;
    if s.kind == ThreadHandle && s.data in k.tcbs {
      var p := k.tcbs[s.data].pcb;
      DestroyFields(k, s.data);
      if p in k.pcbs && k.pcbs[p].mainthread == s.data {
        HandlesMail(DestroyTcb(k, s.data), p, 1, t);
      }
    }
  }

  /** What a thread has received and what waits for it is what waited for it before and what was
      queued for it, in this order. */
  lemma StepDelivers(k: K, c: Call, t: nat)
    requires Ok(k) && Enabled(k, c) && t in k.tcbs && t in Step(k, c).tcbs
    ensures ReceivedBy(k, c, t) + Mail(Step(k, c), t) == Mail(k, t) + QueuedFor(k, c, t)
  {
    hide Ok, Mail, Destroy, AddTimer, PutToSleep, PutToWait, WakeOne, GetMsg, Post, NewTcb, PickNext, NoZero, InOrder, EventsHaveThreads,
         FreeSlot, HandleData;
    match c
    case Tick(now, gs) =>
      TickMail(k, now, gs, t);
    case GetMessage(wait) =>
      CurrFacts(k);
      GetMsgDelivers(k, wait, t);
    case PostMessage(h, m, queued) =>
      var x := HandleData(k, h, ThreadHandle);
      if x in k.tcbs {
        PostMail(k, x, m, queued, t);
      }
    case _ => OtherMail(k, c, t);
  }

  lemma TickMail(k: K, now: real, gs: seq<Grant>, t: nat)
    requires Ok(k) && NoZero(k.(now := now))
    ensures Mail(Step(k, Tick(now, gs)), t) == Mail(k, t) + Pushes(Ran(k, now, gs), gs, t)
  {
    hide Ok, Mail, PickNext, NoZero, InOrder, EventsHaveThreads;
    var n := k.(now := now);
    NowOk(k, now);
    CheckMail(n, gs, t);
    PickTree(CheckEvents(n, gs));
    SameMail(k, n, t);
    SameMail(CheckEvents(n, gs), PickNext(CheckEvents(n, gs)), t);
  }

  /** The other steps touch no message queue but that of a thread they create or destroy. */
  lemma OtherMail(k: K, c: Call, t: nat)
    requires Ok(k) && Enabled(k, c) && t in k.tcbs && t in Step(k, c).tcbs
    requires !c.Tick? && !c.GetMessage? && !c.PostMessage?
    ensures Mail(Step(k, c), t) == Mail(k, t)
  {
    hide Ok, Mail, Destroy, AddTimer, PutToSleep, PutToWait, WakeOne, GetMsg, Post, NewTcb, PickNext, NoZero, InOrder, EventsHaveThreads,
         FreeSlot, HandleData;
    var r := Step(k, c);
    match c
    case CloseHandle(h) =>
      if 0 < h < |k.slots| && k.slots[h].kind != NoHandle && k.curr in k.tcbs && k.slots[h].owner == k.tcbs[k.curr].pcb {
        DestroyMail(ResetSlot(k, h), k.slots[h], t);
        SameMail(k, ResetSlot(k, h), t);
      }
    case SetTimer(ms, repeat, cookie, queued) =>
      CurrFacts(k);
      TimerMail(k, ms, repeat, cookie, queued);
      SameMail(k, r, t);
    case Sleep(ms, bits, queued) =>
      BlockMail(k, ms, bits, 0, queued);
      SameMail(k, r, t);
    case WaitForMutex(h) =>
      BlockMail(k, 0, 0, h, false);
      SameMail(k, r, t);
    case MutexUnlocked(h) =>
      WakeOneMail(k, h);
      SameMail(k, r, t);
    case CreateMutex => SameMail(k, r, t);
    case CreateThread(u, memory) =>
      var h := SlotForNew(k);
      if memory && h != 0 && h < |k.slots| && k.curr in k.tcbs {
        NewMail(k, k.tcbs[k.curr].pcb, u, h, t);
      }
    case Launch(p, u, memory) =>
      var h := SlotForNew(k);
      if memory && h != 0 && h < |k.slots| {
        NewMail(WithProcess(k, p, u), p, u, h, t);
        SameMail(k, WithProcess(k, p, u), t);
      }
  }

  lemma SameMail(k: K, r: K, t: nat)
    requires r.msgs == k.msgs
    ensures Mail(r, t) == Mail(k, t)
  {
  }

  lemma NewMail(k: K, p: nat, u: nat, h: nat, t: nat)
    requires h < |k.slots| && t != u
    ensures Mail(NewTcb(k, p, u, h), t) == Mail(k, t)
  {
    NewFields(k, p, u, h);
  }

  lemma TimerMail(k: K, ms: nat, repeat: bool, cookie: nat, queued: bool)
    requires k.curr in k.tcbs && k.tcbs[k.curr].pcb in k.pcbs
    ensures AddTimer(k, k.curr, ms, repeat, cookie, queued).msgs == k.msgs
  {
  }

  lemma BlockMail(k: K, ms: nat, bits: nat, h: nat, queued: bool)
    ensures k.curr in k.tcbs ==> PickNext(PutToSleep(k, k.curr, ms, bits, queued)).msgs == k.msgs
    ensures k.curr in k.tcbs ==> PickNext(PutToWait(k, k.curr, h)).msgs == k.msgs
  {
  }

  lemma WakeOneMail(k: K, h: nat)
    ensures WakeOne(k, h).msgs == k.msgs
  {
    hide Wakeup;
    var i := FirstWaiting(k, 0, h);
    if i < |k.order| {
      WakeupMail(k, k.order[i]);
    }
  }

  lemma GetMsgDelivers(k: K, wait: bool, t: nat)
    requires k.curr in k.tcbs && t in k.tcbs
    ensures ReceivedBy(k, GetMessage(wait), t) + Mail(GetMsg(k, wait), t) == Mail(k, t)
  {
    var c := Mail(k, k.curr);
    if c != [] && k.curr == t {
      assert [c[0]] + c[1..] == c;
    }
  }

  /** All that is posted to thread `t`, what of it is queued, and all it receives, in the first `n`
      steps of a run. */
  ghost function AllPosted(ks: seq<K>, cs: seq<Call>, t: nat, n: nat): seq<Msg>
    requires Run(ks, cs) && n <= |cs|
  {
    if n == 0 then [] else AllPosted(ks, cs, t, n - 1) + PostedTo(ks[n - 1], cs[n - 1], t)
  }

  ghost function AllQueued(ks: seq<K>, cs: seq<Call>, t: nat, n: nat): seq<Msg>
    requires Run(ks, cs) && n <= |cs|
  {
    if n == 0 then [] else AllQueued(ks, cs, t, n - 1) + QueuedFor(ks[n - 1], cs[n - 1], t)
  }

  ghost function AllReceived(ks: seq<K>, cs: seq<Call>, t: nat, n: nat): seq<Msg>
    requires Run(ks, cs) && n <= |cs|
  {
    if n == 0 then [] else AllReceived(ks, cs, t, n - 1) + ReceivedBy(ks[n - 1], cs[n - 1], t)
  }

  /** In every run a thread receives exactly the messages that were queued for it, in posting order:
      those it has not received yet wait in its queue. */
  lemma {:induction false} RunDelivers(ks: seq<K>, cs: seq<Call>, t: nat, n: nat)
    requires Run(ks, cs) && n <= |cs| && Ok(ks[0]) && forall i :: 0 <= i <= n ==> t in ks[i].tcbs
    ensures AllReceived(ks, cs, t, n) + Mail(ks[n], t) == Mail(ks[0], t) + AllQueued(ks, cs, t, n)
  {
    hide Ok, Step, QueuedFor, ReceivedBy, Enabled, Mail;
    if n > 0 {
      RunDelivers(ks, cs, t, n - 1);
      RunOk(ks, cs, n - 1);
      var k, c := ks[n - 1], cs[n - 1];
      assert ks[n] == Step(k, c);
      StepDelivers(k, c, t);
      Chained(AllReceived(ks, cs, t, n - 1), ReceivedBy(k, c, t), Mail(ks[n], t), Mail(k, t), QueuedFor(k, c, t),
              AllQueued(ks, cs, t, n - 1), Mail(ks[0], t));
    }
  }

  lemma Chained(a: seq<Msg>, r: seq<Msg>, m: seq<Msg>, b: seq<Msg>, d: seq<Msg>, p: seq<Msg>, s: seq<Msg>)
    requires r + m == b + d && a + b == s + p
    ensures (a + r) + m == s + (p + d)
  {
    assert (a + r) + m == a + (r + m) == a + (b + d) == (a + b) + d == (s + p) + d == s + (p + d);
  }

  // ---------- what is lost ----------

  /** Fewer messages are queued than posted exactly if one of them found no room. */
  lemma {:induction false} PushesAll(es: seq<Event>, gs: seq<Grant>, t: nat)
    ensures |Pushes(es, gs, t)| <= |Posts(es, t)|
    ensures (exists i :: 0 <= i < |es| && TimerFor(es[i], t) && !GrantAt(gs, i).post) ==> |Pushes(es, gs, t)| < |Posts(es, t)|
    ensures !(exists i :: 0 <= i < |es| && TimerFor(es[i], t) && !GrantAt(gs, i).post) ==> Pushes(es, gs, t) == Posts(es, t)
    decreases |es|
  {
    if es != [] {
      hide TimerFor;
      PushesAll(es[1..], Rest(gs), t);
      assert GrantAt(gs, 0) == First(gs);
      forall i | 0 <= i < |es| - 1
        ensures es[1..][i] == es[i + 1] && GrantAt(Rest(gs), i) == GrantAt(gs, i + 1)
      {
      }
    }
  }

  lemma StepLoses(k: K, c: Call, t: nat)
    requires Enabled(k, c)
    ensures |QueuedFor(k, c, t)| <= |PostedTo(k, c, t)|
    ensures Refused(k, c, t) ==> |QueuedFor(k, c, t)| < |PostedTo(k, c, t)|
    ensures !Refused(k, c, t) ==> QueuedFor(k, c, t) == PostedTo(k, c, t)
  {
    hide Ran;
    if c.Tick? {
      PushesAll(Ran(k, c.now, c.gs), c.gs, t);
    }
  }

  lemma {:induction false} RunLoses(ks: seq<K>, cs: seq<Call>, t: nat, n: nat)
    requires Run(ks, cs) && n <= |cs|
    ensures |AllQueued(ks, cs, t, n)| <= |AllPosted(ks, cs, t, n)|
    ensures if forall i :: 0 <= i < n ==> !Refused(ks[i], cs[i], t) then AllQueued(ks, cs, t, n) == AllPosted(ks, cs, t, n)
            else |AllQueued(ks, cs, t, n)| < |AllPosted(ks, cs, t, n)|
  {
    hide Refused, QueuedFor, PostedTo, Enabled, Step;
    if n > 0 {
      RunLoses(ks, cs, t, n - 1);
      StepLoses(ks[n - 1], cs[n - 1], t);
    }
  }

  /** A thread receives exactly what was posted to it, in posting order, if and only if its queue could
      take every message. */
  lemma RunDeliversAll(ks: seq<K>, cs: seq<Call>, t: nat, n: nat)
    requires Run(ks, cs) && n <= |cs| && Ok(ks[0]) && forall i :: 0 <= i <= n ==> t in ks[i].tcbs
    ensures AllReceived(ks, cs, t, n) + Mail(ks[n], t) == Mail(ks[0], t) + AllPosted(ks, cs, t, n)
            <==> forall i :: 0 <= i < n ==> !Refused(ks[i], cs[i], t)
  {
    hide Ok, Step, QueuedFor, ReceivedBy, Enabled, Mail, Refused, AllQueued, AllPosted, AllReceived;
    RunDelivers(ks, cs, t, n);
    RunLoses(ks, cs, t, n);
  }
}
