/** The scheduler's state: threads, processes, the ready queue, timed events and handles, and what
    each kernel operation does to them. */
module KernelState {
  import RingQueue

  datatype TcbState = Ready | Blocked | Kernel

  datatype WaitType = NotWaiting | Sleeping | WaitingForMutex | WaitingForMsg

  datatype Msg = Msg(id: nat, param1: nat, param2: nat)

  /** A thread.  `queued` says that its queue field points to the ready queue; `mtx` is the wait
      data, which keeps whatever the last wait left there. */
  datatype Tcb = Tcb(pcb: nat, run: TcbState, queued: bool, wait: WaitType, mtx: nat, handle: nat)

  datatype Pcb = Pcb(mainthread: nat, timers: int)

  /** What a timed event does: wake a thread, post a timer message, or log and repeat. */
  datatype Func = WakeThread(tcb: nat) | ThreadTimer(tcb: nat, ms: nat, repeat: bool, cookie: nat) | LogStack

  /** A timed event.  `stamp` counts the insertions: it is there to say in which order events of the
      same time were queued, nothing looks at it. */
  datatype Event = Event(time: real, stamp: nat, func: Func)

  /** What a due event gets memory for: to be queued again, and for the message it posts. */
  datatype Grant = Grant(again: bool, post: bool)

  datatype HandleType = NoHandle | MutexHandle | ThreadHandle | FileHandle

  datatype Slot = Slot(kind: HandleType, owner: nat, data: nat)

  const OS_MAXHANDLES: nat := 64
  const TIMER_MAX_TIMERS: int := 10
  const MSG_TIMER: nat := 4
  const EMPTY := Slot(NoHandle, 0, 0)

  /** `msgs` holds the message queues; `order` is the circular list of all threads, from the idle
      thread on; `stamp` is that of the next event. */
  datatype K = K(tcbs: map<nat, Tcb>, pcbs: map<nat, Pcb>, msgs: map<nat, seq<Msg>>, order: seq<nat>,
                 ready: seq<nat>, events: seq<Event>, slots: seq<Slot>, curr: nat, idle: nat, now: real, stamp: nat)

  // ---------- the ready queue ----------

  /** The test a thread is taken out of a queue by. */
  function Is(t: nat): nat -> bool {
    x => x == t
  }

  /** Take thread `t` out of the queue it is in, and append it to the ready queue if `on`. */
  function Enqueue(k: K, t: nat, on: bool): K
    requires t in k.tcbs
  {
    var rest := if k.tcbs[t].queued then RingQueue.Without(k.ready, Is(t)) else k.ready;
    k.(ready := if on then rest + [t] else rest, tcbs := k.tcbs[t := k.tcbs[t].(queued := on)])
  }

  /** The next thread to run: the first ready one, which goes to the end of the queue. */
  function PickNext(k: K): K {
    if k.ready == [] then k.(curr := k.idle)
    else k.(curr := k.ready[0], ready := k.ready[1..] + [k.ready[0]])
  }

  function WithTcb(k: K, t: nat, tcb: Tcb): K {
    k.(tcbs := k.tcbs[t := tcb])
  }

  function Wakeup(k: K, t: nat): K
    requires t in k.tcbs
  {
    var r := Enqueue(k, t, true);
    WithTcb(r, t, r.tcbs[t].(run := Ready, wait := NotWaiting))
  }

  // ---------- timed events ----------

  /** How many events are later than `time`: the queue holds what comes first at its end. */
  function PlaceOf(es: seq<Event>, time: real): (p: nat)
    ensures p <= |es|
  {
    if es == [] || es[0].time <= time then 0 else 1 + PlaceOf(es[1..], time)
  }

  function Insert(es: seq<Event>, e: Event): seq<Event> {
    es[..PlaceOf(es, e.time)] + [e] + es[PlaceOf(es, e.time)..]
  }

  function AddEvent(k: K, time: real, func: Func): K {
    k.(events := Insert(k.events, Event(time, k.stamp, func)), stamp := k.stamp + 1)
  }

  /** Milliseconds as the kernel reads them: a signed 32-bit number. */
  function Signed(ms: nat): int {
    if ms % 0x1_0000_0000 < 0x8000_0000 then ms % 0x1_0000_0000 else ms % 0x1_0000_0000 - 0x1_0000_0000
  }

  function Later(now: real, ms: nat): real {
    now + (Signed(ms) as real) / 1000.0
  }

  // ---------- blocking and waking ----------

  /** Put a thread to sleep; the time to wake up overwrites the wait data with `bits`.  Whether its
      wake-up event was queued is not looked at. */
  function PutToSleep(k: K, t: nat, ms: nat, bits: nat, queued: bool): K
    requires t in k.tcbs
  {
    var b := Enqueue(WithTcb(k, t, k.tcbs[t].(run := Blocked, wait := Sleeping, mtx := bits)), t, false);
    if queued then AddEvent(b, Later(k.now, ms), WakeThread(t)) else b
  }

  function PutToWait(k: K, t: nat, h: nat): K
    requires t in k.tcbs
  {
    Enqueue(WithTcb(k, t, k.tcbs[t].(run := Blocked, wait := WaitingForMutex, mtx := h)), t, false)
  }

  function WaitForMsg(k: K, t: nat): K
    requires t in k.tcbs
  {
    Enqueue(WithTcb(k, t, k.tcbs[t].(run := Blocked, wait := WaitingForMsg)), t, false)
  }

  /** Whether the search for a thread waiting for mutex `h` stops here.  It does not look at what the
      thread waits for. */
  predicate WaitsFor(k: K, t: nat, h: nat) {
    t in k.tcbs && k.tcbs[t].run == Blocked && k.tcbs[t].mtx == h
  }

  /** The first such thread in the list, as an index. */
  function FirstWaiting(k: K, from: nat, h: nat): (i: nat)
    requires from <= |k.order|
    ensures from <= i <= |k.order|
    ensures i < |k.order| ==> WaitsFor(k, k.order[i], h)
    ensures forall j :: from <= j < i ==> !WaitsFor(k, k.order[j], h)
    decreases |k.order| - from
  {
    if from == |k.order| || WaitsFor(k, k.order[from], h) then from else FirstWaiting(k, from + 1, h)
  }

  function WakeOne(k: K, h: nat): K {
    var i := FirstWaiting(k, 0, h);
    if i < |k.order| then Wakeup(k, k.order[i]) else k
  }

  // ---------- messages ----------

  /** The messages that wait for thread `t`. */
  function Mail(k: K, t: nat): seq<Msg> {
    if t in k.msgs then k.msgs[t] else []
  }

  function WithMail(k: K, t: nat, ms: seq<Msg>): K {
    k.(msgs := k.msgs[t := ms])
  }

  /** Whether thread `t` is blocked until a message comes. */
  predicate AwaitsMsg(k: K, t: nat) {
    t in k.tcbs && k.tcbs[t].run == Blocked && k.tcbs[t].wait == WaitingForMsg
  }

  /** Append a message, and wake the thread if it waits for one.  A message that the queue has no room
      for, and no memory to grow, is dropped. */
  function Post(k: K, t: nat, m: Msg, queued: bool): K
    requires t in k.tcbs
  {
    if !queued then k
    else if AwaitsMsg(k, t) then Wakeup(WithMail(k, t, Mail(k, t) + [m]), t)
    else WithMail(k, t, Mail(k, t) + [m])
  }

  /** The current thread asks for a message. */
  function GetMsg(k: K, wait: bool): K
    requires k.curr in k.tcbs
  {
    if Mail(k, k.curr) != [] then WithMail(k, k.curr, Mail(k, k.curr)[1..])
    else if wait then PickNext(WaitForMsg(k, k.curr))
    else k
  }

  // ---------- timers ----------

  function WithTimers(k: K, p: nat, n: int): K
    requires p in k.pcbs
  {
    k.(pcbs := k.pcbs[p := k.pcbs[p].(timers := n)])
  }

  /** How many different intervals a timer can have: the mask for them keeps 31 bits. */
  const TIMER_INTERVALS: nat := 0x8000_0000

  function AddTimer(k: K, t: nat, ms: nat, repeat: bool, cookie: nat, queued: bool): K
    requires t in k.tcbs && k.tcbs[t].pcb in k.pcbs
  {
    var p := k.tcbs[t].pcb;
    var m := ms % TIMER_INTERVALS;
    if k.pcbs[p].timers >= TIMER_MAX_TIMERS || !queued then k
    else WithTimers(AddEvent(k, Later(k.now, m), ThreadTimer(t, m, repeat, cookie)), p, k.pcbs[p].timers + 1)
  }

  /** A due timer, before it posts its message: it is taken off its process's account, and put back
      on if it repeats and could be queued again. */
  function TimerAgain(k: K, f: Func, queued: bool): K
    requires f.ThreadTimer? && f.tcb in k.tcbs && k.tcbs[f.tcb].pcb in k.pcbs
  {
    var p := k.tcbs[f.tcb].pcb;
    var d := WithTimers(k, p, k.pcbs[p].timers - 1);
    if f.repeat && queued then WithTimers(AddEvent(d, Later(k.now, f.ms), f), p, d.pcbs[p].timers + 1) else d
  }

  /** A due timer: repeat it if it is a repeating one, and post its message. */
  function TimerDue(k: K, f: Func, g: Grant): K
    requires f.ThreadTimer? && f.tcb in k.tcbs && k.tcbs[f.tcb].pcb in k.pcbs
  {
    Post(TimerAgain(k, f, g.again), f.tcb, TimerMsg(f.cookie), g.post)
  }

  function TimerMsg(cookie: nat): Msg {
    Msg(MSG_TIMER, cookie, 0)
  }

  /** The thread an event is for, and its process, exist. */
  predicate HasThread(k: K, f: Func) {
    f.LogStack? || (f.tcb in k.tcbs && k.tcbs[f.tcb].pcb in k.pcbs)
  }

  /** What an event that has been taken out of the queue does. */
  function RunEvent(k: K, e: Event, g: Grant): K
    requires HasThread(k, e.func)
  {
    match e.func
    case WakeThread(t) => Wakeup(k, t)
    case ThreadTimer(t, ms, repeat, cookie) => TimerDue(k, e.func, g)
    case LogStack => if g.again then AddEvent(k, k.now + 10.0, LogStack) else k
  }

  /** Whether the event at the end of the queue is due. */
  predicate HasDue(k: K) {
    k.events != [] && k.events[|k.events| - 1].time <= k.now
  }

  function Popped(k: K): K
    requires k.events != []
  {
    k.(events := k.events[..|k.events| - 1])
  }

  function Top(k: K): Event
    requires k.events != []
  {
    k.events[|k.events| - 1]
  }

  // ---------- creating and destroying ----------

  function Events(t: nat): Event -> bool {
    (e: Event) => (e.func.WakeThread? || e.func.ThreadTimer?) && e.func.tcb == t
  }

  /** Destroy thread `t`: out of all queues, its timed events dropped, another thread picked if it
      was the current one. */
  function DestroyTcb(k: K, t: nat): K
    requires t in k.tcbs
  {
    var q := Enqueue(k, t, false);
    var e := q.(events := RingQueue.Without(q.events, Events(t)), order := RingQueue.Without(q.order, Is(t)));
    var c := if e.curr == t then PickNext(e) else e;
    c.(tcbs := c.tcbs - {t}, msgs := c.msgs - {t})
  }

  function FreeSlot(slots: seq<Slot>, from: nat): (i: nat)
    requires from <= |slots|
    ensures from <= i <= |slots|
    ensures i < |slots| ==> slots[i].kind == NoHandle
    ensures forall j :: from <= j < i ==> slots[j].kind != NoHandle
    decreases |slots| - from
  {
    if from == |slots| || slots[from].kind == NoHandle then from else FreeSlot(slots, from + 1)
  }

  /** A new thread at address `t` of process `p`, with handle slot `h`. */
  function NewTcb(k: K, p: nat, t: nat, h: nat): K
    requires h < |k.slots|
  {
    var tcb := Tcb(p, Ready, false, NotWaiting, 0, h);
    Enqueue(k.(tcbs := k.tcbs[t := tcb], msgs := k.msgs[t := []], order := k.order + [t],
               slots := k.slots[h := Slot(ThreadHandle, p, t)]), t, true)
  }

  function ResetSlot(k: K, i: nat): K
    requires i < |k.slots|
  {
    k.(slots := k.slots[i := EMPTY])
  }

  /** Destroy a handle whose slot has been read and reset: a thread goes, or with its main thread the
      whole process. */
  function Destroy(k: K, s: Slot): K
    decreases 2
  {
    if s.kind == ThreadHandle && s.data in k.tcbs then
      var p := k.tcbs[s.data].pcb;
      if p in k.pcbs && k.pcbs[p].mainthread == s.data then DestroyProcess(k, p)
      else DestroyTcb(k, s.data)
    else k
  }

  /** Destroy a process: its main thread first, then all its handles. */
  function DestroyProcess(k: K, p: nat): K
    requires p in k.pcbs
    decreases 1
  {
    var m := k.pcbs[p].mainthread;
    var d := if m in k.tcbs then DestroyTcb(k, m) else k;
    var r := DestroyHandles(d, p, 1);
    r.(pcbs := r.pcbs - {p})
  }

  /** Destroy the handles of process `p` from slot `i` on; its main thread is gone already. */
  function DestroyHandles(k: K, p: nat, i: nat): (r: K)
    decreases 0, |k.slots| - i
  {
    if i >= |k.slots| then k
    else if k.slots[i].owner == p then
      var s := k.slots[i];
      var z := ResetSlot(k, i);
      var d := if s.kind == ThreadHandle && s.data in z.tcbs then DestroyTcb(z, s.data) else z;
      if |d.slots| == |k.slots| then DestroyHandles(d, p, i + 1) else d
    else DestroyHandles(k, p, i + 1)
  }
}
