/** What calls, events and ticks do, told by threads, queues and the clock. */
module KernelEffects {
  import opened RingQueue
  import opened KernelState
  import opened KernelTimers
  import opened KernelKeeps
  import opened KernelTree
  import opened KernelRuns

  // ---------- threads ----------

  /** `r` is `s` without `t`, which is in it. */
  ghost predicate Leaves(s: seq<nat>, t: nat, r: seq<nat>) {
    exists i :: 0 <= i < |s| && s[i] == t && r == s[..i] + s[i + 1..]
  }

  /** With the ready threads of `k` as they are, the first of them runs and goes to the end of the queue; the idle
      thread, if there is none. */
  ghost predicate Turns(ready: seq<nat>, r: K) {
    if ready == [] then r.curr == r.idle && r.ready == []
    else r.curr == ready[0] && r.ready == ready[1..] + [ready[0]]
  }

  /** The current thread is blocked, and another one runs. */
  ghost predicate Blocks(k: K, r: K, wait: WaitType, data: nat) {
    && k.curr in k.tcbs
    && r.tcbs == k.tcbs[k.curr := Tcb(k.tcbs[k.curr].pcb, Blocked, false, wait, data, k.tcbs[k.curr].handle)]
    && exists rest :: Leaves(k.ready, k.curr, rest) && Turns(rest, r)
  }

  /** Thread `t` is ready, at the end of the queue. */
  ghost predicate Wakes(k: K, r: K, t: nat) {
    && t in k.tcbs && r.tcbs == k.tcbs[t := Tcb(k.tcbs[t].pcb, Ready, true, NotWaiting, k.tcbs[t].mtx, k.tcbs[t].handle)]
    && if t in k.ready then exists rest :: Leaves(k.ready, t, rest) && r.ready == rest + [t] else r.ready == k.ready + [t]
  }

  /** Thread `i` of the list is blocked with wait data `h`; whether it waits for a mutex is not looked at. */
  ghost predicate Listed(k: K, i: nat, h: nat) {
    i < |k.order| && k.order[i] in k.tcbs && k.tcbs[k.order[i]].run == Blocked && k.tcbs[k.order[i]].mtx == h
  }

  /** The first thread of the list that is blocked with wait data `h` wakes; without one nothing happens. */
  ghost predicate WakesFirst(k: K, r: K, h: nat) {
    && (forall i: nat :: Listed(k, i, h) && (forall j: nat :: j < i ==> !Listed(k, j, h)) ==>
          Wakes(k, r, k.order[i]) && r == k.(tcbs := r.tcbs, ready := r.ready))
    && ((forall i: nat :: !Listed(k, i, h)) ==> r == k)
  }

  // ---------- time ----------

  /** Milliseconds `ms` read as the signed number `x` of 32 bits. */
  ghost predicate Reads(ms: nat, x: int) {
    -0x8000_0000 <= x < 0x8000_0000 && (ms - x) % 0x1_0000_0000 == 0
  }

  /** Event `e` has been queued behind all that run before it. */
  ghost predicate Queued(k: K, r: K, e: Event) {
    && e.stamp == k.stamp && r.stamp == k.stamp + 1
    && exists p: nat :: p <= |k.events| && r.events == k.events[..p] + [e] + k.events[p..]
                        && (forall i :: 0 <= i < p ==> k.events[i].time > e.time)
                        && (forall i :: p <= i < |k.events| ==> k.events[i].time <= e.time)
  }

  /** An event for `f` has been queued that is due in `x` milliseconds. */
  ghost predicate Alarm(k: K, r: K, x: int, f: Func) {
    exists e: Event :: e.func == f && (e.time - k.now) * 1000.0 == x as real && Queued(k, r, e)
  }

  ghost predicate AlarmIn(k: K, r: K, ms: nat, f: Func) {
    exists x :: Reads(ms, x) && Alarm(k, r, x, f)
  }

  ghost predicate SameEvents(k: K, r: K) {
    r.events == k.events && r.stamp == k.stamp
  }

  // ---------- messages ----------

  /** All queues but that of `t` are as they were. */
  ghost predicate RestMail(k: K, r: K, t: nat) {
    forall u :: u != t ==> Mail(r, u) == Mail(k, u)
  }

  /** Message `m` is the last of thread `t` now, and wakes it if it was blocked for one; if it could not be queued,
      nothing has happened. */
  ghost predicate Posted(k: K, r: K, t: nat, m: Msg, queued: bool) {
    if !queued then r == k
    else
      && Mail(r, t) == Mail(k, t) + [m] && RestMail(k, r, t)
      && r == k.(tcbs := r.tcbs, ready := r.ready, msgs := r.msgs)
      && if t in k.tcbs && k.tcbs[t].run == Blocked && k.tcbs[t].wait == WaitingForMsg then Wakes(k, r, t)
         else r.tcbs == k.tcbs && r.ready == k.ready
  }

  // ---------- handles ----------

  /** Handle `h` is one of the current process, for a mutex. */
  ghost predicate MutexOf(k: K, h: nat) {
    && 0 < h < |k.slots| && k.curr in k.tcbs && k.slots[h].kind == MutexHandle && k.slots[h].owner == k.tcbs[k.curr].pcb
    && k.slots[h].data != 0
  }

  /** Thread `t` of the current process has handle `h`. */
  ghost predicate HandleFor(k: K, t: nat, h: nat) {
    t in k.tcbs && k.curr in k.tcbs && k.tcbs[t].pcb == k.tcbs[k.curr].pcb && k.tcbs[t].handle == h
  }

  /** `h` is the first free slot from 1 on. */
  ghost predicate FreeHandle(k: K, h: nat) {
    0 < h < |k.slots| && k.slots[h].kind == NoHandle && forall i :: 0 < i < h ==> k.slots[i].kind != NoHandle
  }

  ghost predicate NoneLeft(k: K) {
    forall i :: 0 < i < |k.slots| ==> k.slots[i].kind != NoHandle
  }

  /** A new ready thread `t` of process `p` with handle `h`. */
  ghost predicate Starts(k: K, r: K, p: nat, t: nat, h: nat) {
    && h < |k.slots|
    && r == k.(tcbs := k.tcbs[t := Tcb(p, Ready, true, NotWaiting, 0, h)], msgs := k.msgs[t := []], order := k.order + [t],
               ready := k.ready + [t], slots := k.slots[h := Slot(ThreadHandle, p, t)], pcbs := r.pcbs)
  }

  /** A handle of the current process. */
  predicate OwnHandle(k: K, h: nat) {
    0 < h < |k.slots| && k.slots[h].kind != NoHandle && k.curr in k.tcbs && k.slots[h].owner == k.tcbs[k.curr].pcb
  }

  /** The process that goes with handle `h`: that of a main thread. */
  ghost predicate EndsProcess(k: K, h: nat, p: nat) {
    && h < |k.slots| && k.slots[h].kind == ThreadHandle && k.slots[h].owner == p && p in k.pcbs
    && k.pcbs[p].mainthread == k.slots[h].data
  }

  /** Thread `t` goes with handle `h`: it is the thread of the handle, or one of the process that goes with it. */
  ghost predicate Ends(k: K, h: nat, t: nat) {
    && h < |k.slots| && k.slots[h].kind == ThreadHandle && t in k.tcbs
    && (t == k.slots[h].data || EndsProcess(k, h, k.tcbs[t].pcb))
  }

  /** Just these threads are gone; those that are left are as they were, and so are their messages and events. */
  ghost predicate Survive(k: K, r: K, h: nat) {
    && r.now == k.now && (forall t :: t in r.tcbs <==> t in k.tcbs && !Ends(k, h, t))
    && (forall t :: t in r.tcbs ==> r.tcbs[t] == k.tcbs[t] && Mail(r, t) == Mail(k, t))
    && (forall e :: e in r.events <==> e in k.events && (e.func.LogStack? || e.func.tcb in r.tcbs))
  }

  /** Just the handle, and those of a process that goes with it, are free now. */
  ghost predicate Frees(k: K, r: K, h: nat) {
    && |r.slots| == |k.slots|
    && forall i :: 0 <= i < |k.slots| ==>
         r.slots[i] == if i == h || EndsProcess(k, h, k.slots[i].owner) then EMPTY else k.slots[i]
  }

  // ---------- events ----------

  /** The process of a due timer is charged for one less, or, if the timer repeats and could be queued again, for as
      many as before. */
  ghost predicate Repeats(k: K, r: K, f: Func, again: bool) {
    && f.ThreadTimer? && f.tcb in k.tcbs && k.tcbs[f.tcb].pcb in k.pcbs
    && var p := k.tcbs[f.tcb].pcb;
       if f.repeat && again then r == k.(events := r.events, stamp := r.stamp) && AlarmIn(k, r, f.ms, f)
       else r == k.(pcbs := k.pcbs[p := k.pcbs[p].(timers := k.pcbs[p].timers - 1)])
  }

  /** What an event does that was taken out of the queue. */
  ghost predicate Happens(k: K, r: K, f: Func, g: Grant) {
    match f
    case WakeThread(t) => Wakes(k, r, t) && r == k.(tcbs := r.tcbs, ready := r.ready)
    case ThreadTimer(t, ms, repeat, cookie) =>
      exists q :: Repeats(k, q, f, g.again) && Posted(q, r, t, Msg(4, cookie, 0), g.post)
    case LogStack =>
      if g.again then Alarm(k, r, 10000, LogStack) && r == k.(events := r.events, stamp := r.stamp) else r == k
  }

  /** The last event of the queue, which is due, is taken out and happens. */
  ghost predicate HappensNext(k: K, r: K, g: Grant) {
    && k.events != [] && k.events[|k.events| - 1].time <= k.now
    && Happens(k.(events := k.events[..|k.events| - 1]), r, k.events[|k.events| - 1].func, g)
  }

  ghost predicate NoneDue(k: K) {
    forall i :: 0 <= i < |k.events| ==> k.events[i].time > k.now
  }

  /** One due event after the other happens, until none is due. */
  ghost predicate HappenAll(ks: seq<K>, gs: seq<Grant>) {
    && ks != [] && (forall i :: 0 <= i < |ks| - 1 ==> HappensNext(ks[i], ks[i + 1], GrantAt(gs, i)))
    && NoneDue(ks[|ks| - 1])
  }

  // ---------- calls ----------

  /** The current thread goes to sleep; its wake-up event is due in `ms` milliseconds. */
  ghost predicate FallsAsleep(k: K, r: K, ms: nat, bits: nat, queued: bool) {
    && Blocks(k, r, Sleeping, bits) && r == k.(tcbs := r.tcbs, ready := r.ready, curr := r.curr, events := r.events, stamp := r.stamp)
    && if queued then AlarmIn(k, r, ms, WakeThread(k.curr)) else SameEvents(k, r)
  }

  /** The current thread is blocked, and nothing else happens than that another one runs. */
  ghost predicate JustBlocks(k: K, r: K, wait: WaitType, data: nat) {
    Blocks(k, r, wait, data) && r == k.(tcbs := r.tcbs, ready := r.ready, curr := r.curr)
  }

  /** The current thread gets its first message; without one it is blocked until there is one, if it wants to wait. */
  ghost predicate GetsMsg(k: K, r: K, wait: bool) {
    && k.curr in k.tcbs
    && if Mail(k, k.curr) != [] then r == k.(msgs := r.msgs) && Mail(r, k.curr) == Mail(k, k.curr)[1..] && RestMail(k, r, k.curr)
       else if wait then JustBlocks(k, r, WaitingForMsg, k.tcbs[k.curr].mtx)
       else r == k
  }

  /** A message is posted to the thread that has the handle; without one nothing happens. */
  ghost predicate PostsTo(k: K, r: K, h: nat, m: Msg, queued: bool) {
    (forall t :: HandleFor(k, t, h) ==> Posted(k, r, t, m, queued)) && ((forall t :: !HandleFor(k, t, h)) ==> r == k)
  }

  /** A timer is set that is due in the milliseconds asked for, of which 31 bits are kept; with ten timers, or
      without room or memory, nothing happens. */
  ghost predicate SetsTimer(k: K, r: K, ms: nat, repeat: bool, cookie: nat, queued: bool) {
    && k.curr in k.tcbs && k.tcbs[k.curr].pcb in k.pcbs
    && var p, x := k.tcbs[k.curr].pcb, ms % 0x8000_0000;
       if queued && k.pcbs[p].timers < 10
       then Alarm(k, r, x, ThreadTimer(k.curr, x, repeat, cookie))
            && r == k.(events := r.events, stamp := r.stamp, pcbs := k.pcbs[p := k.pcbs[p].(timers := k.pcbs[p].timers + 1)])
       else r == k
  }

  /** A handle is closed with all that goes with it. */
  ghost predicate Closes(k: K, r: K, h: nat) {
    Survive(k, r, h) && Frees(k, r, h) && forall p :: p in r.pcbs <==> p in k.pcbs && !EndsProcess(k, h, p)
  }

  /** The first free slot is a mutex handle of the current process. */
  ghost predicate NewMutex(k: K, r: K) {
    && k.curr in k.tcbs
    && (forall h: nat :: FreeHandle(k, h) ==> r == k.(slots := k.slots[h := Slot(MutexHandle, k.tcbs[k.curr].pcb, k.curr)]))
    && (NoneLeft(k) ==> r == k)
  }

  ghost predicate NewThread(k: K, r: K, t: nat, memory: bool) {
    && k.curr in k.tcbs
    && (forall h: nat :: memory && FreeHandle(k, h) ==> Starts(k, r, k.tcbs[k.curr].pcb, t, h) && r.pcbs == k.pcbs)
    && (!memory || NoneLeft(k) ==> r == k)
  }

  ghost predicate NewProcess(k: K, r: K, p: nat, t: nat, memory: bool) {
    && (forall h: nat :: memory && FreeHandle(k, h) ==> Starts(k, r, p, t, h) && r.pcbs == k.pcbs[p := Pcb(t, 0)])
    && (!memory || NoneLeft(k) ==> r == k)
  }

  /** All due events happen, then another thread runs. */
  ghost predicate Ticks(k: K, r: K, now: real, gs: seq<Grant>) {
    exists ks: seq<K> :: HappenAll(ks, gs) && ks[0] == k.(now := now)
                         && Turns(ks[|ks| - 1].ready, r) && r == ks[|ks| - 1].(ready := r.ready, curr := r.curr)
  }

  /** What call `c` does. */
  ghost predicate Effect(k: K, c: Call, r: K) {
    match c
    case Sleep(ms, bits, queued) => FallsAsleep(k, r, ms, bits, queued)
    case WaitForMutex(h) => if MutexOf(k, h) then JustBlocks(k, r, WaitingForMutex, h) else r == k
    case MutexUnlocked(h) => if MutexOf(k, h) then WakesFirst(k, r, h) else r == k
    case GetMessage(wait) => GetsMsg(k, r, wait)
    case PostMessage(h, m, queued) => PostsTo(k, r, h, m, queued)
    case SetTimer(ms, repeat, cookie, queued) => SetsTimer(k, r, ms, repeat, cookie, queued)
    case CloseHandle(h) => if OwnHandle(k, h) then Closes(k, r, h) else r == k
    case CreateMutex => NewMutex(k, r)
    case CreateThread(t, memory) => NewThread(k, r, t, memory)
    case Launch(p, t, memory) => NewProcess(k, r, p, t, memory)
    case Tick(now, gs) => Ticks(k, r, now, gs)
  }

  // ---------- the ready queue ----------

  lemma {:induction false} WithoutNone(s: seq<nat>, t: nat)
    requires t !in s
    ensures Without(s, Is(t)) == s
  {
    if s != [] {
      assert s == s[..|s| - 1] + [s[|s| - 1]];
      WithoutNone(s[..|s| - 1], t);
    }
  }

  lemma {:induction false} WithoutLeaves(s: seq<nat>, t: nat)
    requires NoDup(s) && t in s
    ensures Leaves(s, t, Without(s, Is(t)))
  {
    var m := |s| - 1;
    var f := s[..m];
    assert s == f + [s[m]];
    if s[m] == t {
      WithoutNone(f, t);
      LeavesAt(s, m);
    } else {
      WithoutLeaves(f, t);
      LeavesMore(f, t, Without(f, Is(t)), s[m]);
    }
  }

  lemma LeavesAt(s: seq<nat>, i: nat)
    requires i < |s|
    ensures Leaves(s, s[i], s[..i] + s[i + 1..]) && (i + 1 == |s| ==> s[..i] + s[i + 1..] == s[..i])
  {
  }

  lemma LeavesMore(s: seq<nat>, t: nat, r: seq<nat>, x: nat)
    requires Leaves(s, t, r)
    ensures Leaves(s + [x], t, r + [x])
  {
    var i :| 0 <= i < |s| && s[i] == t && r == s[..i] + s[i + 1..];
    var z := s + [x];
    assert z[..i] + z[i + 1..] == r + [x];
  }

  lemma PickTurns(k: K)
    ensures Turns(k.ready, PickNext(k)) && PickNext(k) == k.(ready := PickNext(k).ready, curr := PickNext(k).curr)
  {
  }

  /** Blocking the current thread, which is ready. */
  lemma BlockIs(k: K, wait: WaitType, data: nat)
    requires Ok(k) && UserCall(k) && k.curr in k.tcbs
    ensures var b := Enqueue(WithTcb(k, k.curr, k.tcbs[k.curr].(run := Blocked, wait := wait, mtx := data)), k.curr, false);
            && b == k.(ready := b.ready, tcbs := b.tcbs) && Leaves(k.ready, k.curr, b.ready)
            && b.tcbs == k.tcbs[k.curr := Tcb(k.tcbs[k.curr].pcb, Blocked, false, wait, data, k.tcbs[k.curr].handle)]
  {
    CurrFacts(k);
    assert k.curr in k.ready && k.tcbs[k.curr].queued && NoDup(k.ready);
    WithoutLeaves(k.ready, k.curr);
  }

  lemma WakeupIs(k: K, t: nat)
    requires ReadyOk(k) && t in k.tcbs
    ensures Wakes(k, Wakeup(k, t), t) && Wakeup(k, t) == k.(tcbs := Wakeup(k, t).tcbs, ready := Wakeup(k, t).ready)
  {
    if t in k.ready {
      WithoutLeaves(k.ready, t);
    }
  }

  // ---------- waking and posting ----------

  lemma WakeOneIs(k: K, h: nat)
    requires ReadyOk(k)
    ensures WakesFirst(k, WakeOne(k, h), h)
  {
    var n := FirstWaiting(k, 0, h);
    if n < |k.order| {
      WakeupIs(k, k.order[n]);
      assert Listed(k, n, h);
    }
    assert forall j: nat :: j < n ==> !WaitsFor(k, k.order[j], h);
    hide Wakeup, Wakes;
  }

  lemma PostIs(k: K, t: nat, m: Msg, queued: bool)
    requires ReadyOk(k) && t in k.tcbs
    ensures Posted(k, Post(k, t, m, queued), t, m, queued)
  {
    if queued {
      var p := WithMail(k, t, Mail(k, t) + [m]);
      if AwaitsMsg(k, t) {
        WakeupIs(p, t);
        hide Wakeup, Leaves;
        assert Wakes(k, Wakeup(p, t), t);
      }
    }
  }

  // ---------- events ----------

  lemma InsertQueued(k: K, time: real, f: Func)
    requires InOrder(k)
    ensures var r := AddEvent(k, time, f); Queued(k, r, Event(time, k.stamp, f)) && r == k.(events := r.events, stamp := r.stamp)
  {
    var p := PlaceOf(k.events, time);
    PlaceFront(k.events, time);
    forall i | p <= i < |k.events|
      ensures k.events[i].time <= time
    {
      assert i > p ==> Before(k.events[i], k.events[p]);
    }
  }

  lemma SignedReads(ms: nat)
    ensures Reads(ms, Signed(ms))
  {
    var q := ms / 0x1_0000_0000;
    assert ms == 0x1_0000_0000 * q + ms % 0x1_0000_0000;
    assert ms - Signed(ms) == 0x1_0000_0000 * q || ms - Signed(ms) == 0x1_0000_0000 * (q + 1);
  }

  lemma AddAlarm(k: K, ms: nat, f: Func)
    requires InOrder(k)
    ensures var r := AddEvent(k, Later(k.now, ms), f);
            AlarmIn(k, r, ms, f) && Alarm(k, r, Signed(ms), f) && r == k.(events := r.events, stamp := r.stamp)
  {
    SignedReads(ms);
    InsertQueued(k, Later(k.now, ms), f);
    hide AddEvent, Queued, Reads;
    var e := Event(Later(k.now, ms), k.stamp, f);
    assert (e.time - k.now) * 1000.0 == Signed(ms) as real;
  }

  /** An alarm depends on the events and the clock only. */
  lemma AlarmSame(k: K, r: K, a: K, b: K, ms: nat, f: Func)
    requires AlarmIn(k, r, ms, f) && SameEvents(k, a) && a.now == k.now && SameEvents(r, b)
    ensures AlarmIn(a, b, ms, f)
  {
    var x :| Reads(ms, x) && Alarm(k, r, x, f);
    hide Reads;
    AlarmMoved(k, r, a, b, x, f);
  }

  lemma AlarmMoved(k: K, r: K, a: K, b: K, x: int, f: Func)
    requires Alarm(k, r, x, f) && SameEvents(k, a) && a.now == k.now && SameEvents(r, b)
    ensures Alarm(a, b, x, f)
  {
    var e: Event :| e.func == f && (e.time - k.now) * 1000.0 == x as real && Queued(k, r, e);
    assert Queued(a, b, e);
    hide Queued;
  }

  // ---------- calls ----------

  lemma OkOrder(k: K)
    requires Ok(k)
    ensures InOrder(k) && ReadyOk(k)
  {
  }

  /** With the thread out of the queue another one runs. */
  lemma BlocksIs(k: K, b: K, wait: WaitType, data: nat)
    requires k.curr in k.tcbs && Leaves(k.ready, k.curr, b.ready)
    requires b.tcbs == k.tcbs[k.curr := Tcb(k.tcbs[k.curr].pcb, Blocked, false, wait, data, k.tcbs[k.curr].handle)]
    ensures Blocks(k, PickNext(b), wait, data) && PickNext(b) == b.(ready := PickNext(b).ready, curr := PickNext(b).curr)
  {
    PickTurns(b);
    hide PickNext, Leaves, Turns;
  }

  lemma SleepIs(k: K, ms: nat, bits: nat, queued: bool)
    requires Ok(k) && UserCall(k)
    ensures k.curr in k.tcbs && FallsAsleep(k, PickNext(PutToSleep(k, k.curr, ms, bits, queued)), ms, bits, queued)
  {
    hide Ok, Enqueue, AddEvent, AlarmIn, PickNext, Leaves, Turns, Blocks, Alarm;
    CurrFacts(k);
    OkOrder(k);
    BlockIs(k, Sleeping, bits);
    var b := Enqueue(WithTcb(k, k.curr, k.tcbs[k.curr].(run := Blocked, wait := Sleeping, mtx := bits)), k.curr, false);
    var d := PutToSleep(k, k.curr, ms, bits, queued);
    if queued {
      AddAlarm(b, ms, WakeThread(k.curr));
    }
    BlocksIs(k, d, Sleeping, bits);
    if queued {
      AlarmSame(b, d, k, PickNext(d), ms, WakeThread(k.curr));
    }
  }

  lemma WaitIs(k: K, h: nat)
    requires Ok(k) && UserCall(k)
    ensures k.curr in k.tcbs && JustBlocks(k, PickNext(PutToWait(k, k.curr, h)), WaitingForMutex, h)
  {
    hide Ok, Enqueue, PickNext, Leaves, Turns, Blocks;
    CurrFacts(k);
    BlockIs(k, WaitingForMutex, h);
    BlocksIs(k, PutToWait(k, k.curr, h), WaitingForMutex, h);
  }

  lemma GetIs(k: K, wait: bool)
    requires Ok(k) && UserCall(k)
    ensures k.curr in k.tcbs && GetsMsg(k, GetMsg(k, wait), wait)
  {
    hide Ok, Enqueue, PickNext, Leaves, Turns, Blocks;
    CurrFacts(k);
    var c := k.tcbs[k.curr];
    assert c.(run := Blocked, wait := WaitingForMsg) == c.(run := Blocked, wait := WaitingForMsg, mtx := c.mtx);
    BlockIs(k, WaitingForMsg, c.mtx);
    BlocksIs(k, WaitForMsg(k, k.curr), WaitingForMsg, c.mtx);
  }

  lemma TimerIs(k: K, ms: nat, repeat: bool, cookie: nat, queued: bool)
    requires Ok(k) && UserCall(k)
    ensures k.curr in k.tcbs && k.tcbs[k.curr].pcb in k.pcbs
    ensures SetsTimer(k, AddTimer(k, k.curr, ms, repeat, cookie, queued), ms, repeat, cookie, queued)
  {
    hide Ok, AddEvent, Alarm, AlarmIn, Insert;
    CurrFacts(k);
    OkOrder(k);
    var x := ms % 0x8000_0000;
    var f := ThreadTimer(k.curr, x, repeat, cookie);
    SmallSigned(x);
    AddAlarm(k, x, f);
    var a := AddEvent(k, Later(k.now, x), f);
    var r := AddTimer(k, k.curr, ms, repeat, cookie, queued);
    if queued && k.pcbs[k.tcbs[k.curr].pcb].timers < 10 {
      AlarmMoved(k, a, k, r, x, f);
    }
  }

  lemma SmallSigned(x: nat)
    requires x < 0x8000_0000
    ensures Signed(x) == x
  {
  }

  /** A handle leads to just the thread that has it. */
  lemma TargetIs(k: K, h: nat)
    requires Ok(k) && k.curr in k.tcbs
    ensures var t := HandleData(k, h, ThreadHandle);
            (forall u :: HandleFor(k, u, h) <==> t != 0 && u == t) && (t != 0 ==> t in k.tcbs)
  {
    var t := HandleData(k, h, ThreadHandle);
    if t != 0 {
      assert SlotOk(k, h, k.slots[h]);
    }
    forall u | HandleFor(k, u, h)
      ensures t != 0 && u == t
    {
      assert HandleOf(k, u) && ThreadOk(k, u);
    }
  }

  lemma PostMessageIs(k: K, h: nat, m: Msg, queued: bool)
    requires Ok(k) && UserCall(k)
    ensures var t := HandleData(k, h, ThreadHandle);
            if t != 0 && t in k.tcbs then PostsTo(k, Post(k, t, m, queued), h, m, queued) else PostsTo(k, k, h, m, queued)
  {
    hide Ok, Posted, Post, HandleData, HandleFor;
    CurrFacts(k);
    OkOrder(k);
    TargetIs(k, h);
    var t := HandleData(k, h, ThreadHandle);
    if t != 0 {
      PostIs(k, t, m, queued);
      assert HandleFor(k, t, h);
    }
  }

  lemma SlotIs(k: K)
    requires |k.slots| > 0
    ensures forall h: nat :: FreeHandle(k, h) <==> h != 0 && h == SlotForNew(k)
    ensures (NoneLeft(k) <==> SlotForNew(k) == 0) && SlotForNew(k) < |k.slots|
  {
    assert forall h :: 0 < h < FreeSlot(k.slots, 1) ==> k.slots[h].kind != NoHandle;
  }

  lemma StartsIs(k: K, p: nat, t: nat, h: nat)
    requires ReadyOk(k) && t !in k.tcbs && h < |k.slots|
    ensures Starts(k, NewTcb(k, p, t, h), p, t, h) && NewTcb(k, p, t, h).pcbs == k.pcbs
    ensures Starts(k, NewTcb(WithProcess(k, p, t), p, t, h), p, t, h)
    ensures NewTcb(WithProcess(k, p, t), p, t, h).pcbs == k.pcbs[p := Pcb(t, 0)]
  {
  }

  // ---------- ticks ----------

  lemma AgainIs(k: K, f: Func, again: bool)
    requires InOrder(k) && f.ThreadTimer? && f.tcb in k.tcbs && k.tcbs[f.tcb].pcb in k.pcbs
    ensures Repeats(k, TimerAgain(k, f, again), f, again) && TimerAgain(k, f, again).ready == k.ready
    ensures TimerAgain(k, f, again).tcbs == k.tcbs
  {
    hide AddEvent, Insert, AlarmIn, Alarm, Lined;
    var p := k.tcbs[f.tcb].pcb;
    var d := WithTimers(k, p, k.pcbs[p].timers - 1);
    if f.repeat && again {
      AddAlarm(d, f.ms, f);
      var a := AddEvent(d, Later(k.now, f.ms), f);
      AlarmSame(d, a, k, TimerAgain(k, f, again), f.ms, f);
      assert a.pcbs[p := a.pcbs[p].(timers := d.pcbs[p].timers + 1)] == k.pcbs;
    }
  }

  lemma LogIs(k: K)
    requires InOrder(k)
    ensures var r := AddEvent(k, k.now + 10.0, LogStack); Alarm(k, r, 10000, LogStack) && r == k.(events := r.events, stamp := r.stamp)
  {
    InsertQueued(k, k.now + 10.0, LogStack);
    hide AddEvent, Queued;
    assert Event(k.now + 10.0, k.stamp, LogStack).func == LogStack;
  }

  lemma RunEventIs(k: K, f: Func, e: Event, g: Grant)
    requires ReadyOk(k) && InOrder(k) && HasThread(k, e.func) && f == e.func
    ensures Happens(k, RunEvent(k, e, g), f, g)
  {
    hide ReadyOk, InOrder, Wakeup, Wakes, Repeats, Posted, Post, TimerAgain, AddEvent, Alarm;
    match f
    case WakeThread(t) => WakeupIs(k, t);
    case ThreadTimer(t, ms, repeat, cookie) =>
      AgainIs(k, f, g.again);
      var q := TimerAgain(k, f, g.again);
      ReadySame(k, q);
      PostIs(q, t, TimerMsg(cookie), g.post);
    case LogStack => LogIs(k);
  }

  lemma ReadySame(k: K, q: K)
    requires ReadyOk(k) && q.ready == k.ready && q.tcbs == k.tcbs
    ensures ReadyOk(q)
  {
  }

  lemma NextIs(k: K, g: Grant)
    requires Ok(k) && HasDue(k)
    ensures HasThread(Popped(k), Top(k).func) && HappensNext(k, RunEvent(Popped(k), Top(k), g), g)
  {
    hide Ok, RunEvent, Happens, HasThread, ReadyOk, InOrder, SchedOk, TreeOk, SlotsOk, EventOk, Owes;
    PoppedAllOk(k);
    PoppedOk(k);
    OkOrder(Popped(k));
    RunEventIs(Popped(k), Top(k).func, Top(k), g);
  }

  /** The states a tick goes through. */
  ghost function Trace(k: K, gs: seq<Grant>): (ks: seq<K>)
    requires InOrder(k) && NoZero(k) && EventsHaveThreads(k)
    ensures ks != [] && ks[0] == k && ks[|ks| - 1] == CheckEvents(k, gs)
    decreases |DueList(k.events, k.now)|
  {
    if !HasDue(k) then [k]
    else
      RunTakesOne(k, First(gs));
      [k] + Trace(RunEvent(Popped(k), Top(k), First(gs)), Rest(gs))
  }

  lemma {:induction false} TraceIs(k: K, gs: seq<Grant>)
    requires Ok(k) && InOrder(k) && NoZero(k) && EventsHaveThreads(k)
    ensures HappenAll(Trace(k, gs), gs)
    decreases |DueList(k.events, k.now)|
  {
    hide Ok, InOrder, NoZero, EventsHaveThreads, RunEvent, HappensNext, DueList, NoneDue;
    if HasDue(k) {
      RunTakesOne(k, First(gs));
      RunEventOk(k, First(gs));
      NextIs(k, First(gs));
      var r := RunEvent(Popped(k), Top(k), First(gs));
      TraceIs(r, Rest(gs));
      var ks, qs := Trace(k, gs), Trace(r, Rest(gs));
      forall i | 0 <= i < |ks| - 1
        ensures HappensNext(ks[i], ks[i + 1], GrantAt(gs, i))
      {
        if i > 0 {
          assert ks[i] == qs[i - 1] && ks[i + 1] == qs[i] && GrantAt(gs, i) == GrantAt(Rest(gs), i - 1);
        } else {
          assert ks[1] == qs[0] && GrantAt(gs, 0) == First(gs);
        }
      }
    } else {
      NothingIsDue(k);
    }
  }

  lemma NothingIsDue(k: K)
    requires InOrder(k) && !HasDue(k)
    ensures NoneDue(k)
  {
    NothingDue(k);
  }

  lemma TickIs(k: K, now: real, gs: seq<Grant>)
    requires Ok(k) && NoZero(k.(now := now))
    ensures InOrder(k.(now := now)) && EventsHaveThreads(k.(now := now))
    ensures Ticks(k, PickNext(CheckEvents(k.(now := now), gs)), now, gs)
  {
    hide Ok, InOrder, NoZero, EventsHaveThreads, PickNext, HappenAll, CheckEvents, Turns;
    var n := k.(now := now);
    NowOk(k, now);
    TraceIs(n, gs);
    var ks := Trace(n, gs);
    PickTurns(CheckEvents(n, gs));
    assert HappenAll(ks, gs) && ks[0] == n;
  }

  // ---------- closing handles ----------

  lemma EventThreads(k: K)
    requires Ok(k)
    ensures forall e :: e in k.events ==> e.func.LogStack? || e.func.tcb in k.tcbs
  {
    forall e | e in k.events
      ensures e.func.LogStack? || e.func.tcb in k.tcbs
    {
      var i :| 0 <= i < |k.events| && k.events[i] == e;
      assert EventOk(k, k.events[i].func);
    }
  }

  /** Threads are gone, with their messages and events, and nothing else of that kind has changed. */
  ghost predicate Fewer(k: K, r: K) {
    && r.now == k.now && r.tcbs.Keys <= k.tcbs.Keys
    && (forall t :: t in r.tcbs ==> r.tcbs[t] == k.tcbs[t] && Mail(r, t) == Mail(k, t))
    && (forall e :: e in r.events ==> e in k.events)
    && (forall e :: e in k.events && (e.func.LogStack? || e.func.tcb in r.tcbs) ==> e in r.events)
  }

  lemma FewerTwice(k: K, m: K, r: K)
    requires Fewer(k, m) && Fewer(m, r)
    ensures Fewer(k, r)
  {
  }

  lemma DestroyFewer(k: K, t: nat)
    requires t in k.tcbs
    ensures Fewer(k, DestroyTcb(k, t)) && DestroyTcb(k, t).tcbs.Keys == k.tcbs.Keys - {t}
  {
    hide DestroyTcb, Without;
    DestroyFields(k, t);
    forall e: Event
      ensures e in Without(k.events, Events(t)) <==> e in k.events && !Events(t)(e)
    {
      WithoutIn(k.events, Events(t), e);
    }
  }

  lemma ResetFewer(k: K, i: nat)
    requires i < |k.slots|
    ensures Fewer(k, ResetSlot(k, i))
  {
  }

  /** The handles of process `p` from slot `i` on, and its threads that have one of them, are gone. */
  lemma {:induction false} HandlesFewer(k: K, p: nat, i: nat)
    requires Dying(k, p, i) && i <= |k.slots|
    ensures var r := DestroyHandles(k, p, i);
            && Fewer(k, r) && r.pcbs == k.pcbs && |r.slots| == |k.slots|
            && (forall j :: 0 <= j < |k.slots| ==> r.slots[j] == if j >= i && k.slots[j].owner == p then EMPTY else k.slots[j])
            && (forall t :: t in k.tcbs && k.tcbs[t].pcb != p ==> t in r.tcbs)
    decreases |k.slots| - i
  {
    hide Dying, DestroyTcb;
    if i < |k.slots| {
      DyingStep(k, p, i);
      if k.slots[i].owner == p {
        var s, z := k.slots[i], ResetSlot(k, i);
        ResetFewer(k, i);
        var d := if s.kind == ThreadHandle && s.data in z.tcbs then DestroyTcb(z, s.data) else z;
        if s.kind == ThreadHandle && s.data in z.tcbs {
          DestroyFewer(z, s.data);
          DestroyFields(z, s.data);
        }
        hide ResetSlot, Fewer;
        HandlesFewer(d, p, i + 1);
        HandlesJoin(k, z, d, p, i);
      } else {
        HandlesFewer(k, p, i + 1);
      }
    }
  }

  lemma HandlesJoin(k: K, z: K, d: K, p: nat, i: nat)
    requires i < |k.slots| && z == ResetSlot(k, i) && Fewer(k, z) && (d == z || Fewer(z, d)) && Fewer(d, DestroyHandles(d, p, i + 1))
    ensures Fewer(k, DestroyHandles(d, p, i + 1))
  {
    hide Fewer;
    if d != z {
      FewerTwice(k, z, d);
    }
    FewerTwice(k, d, DestroyHandles(d, p, i + 1));
  }

  lemma NoProcessEnds(k: K, h: nat)
    requires h < |k.slots| && !EndsProcess(k, h, k.slots[h].owner)
    ensures forall p :: !EndsProcess(k, h, p)
    ensures forall t :: Ends(k, h, t) <==> k.slots[h].kind == ThreadHandle && t in k.tcbs && t == k.slots[h].data
  {
  }

  /** What is left has its events, if what happened was in order. */
  lemma FewerSurvive(k: K, r: K, h: nat)
    requires Ok(k) && Ok(r) && Fewer(k, r) && forall t :: t in r.tcbs <==> t in k.tcbs && !Ends(k, h, t)
    ensures Survive(k, r, h)
  {
    hide Ok, Ends, Mail;
    EventThreads(k);
    EventThreads(r);
  }

  lemma FewerIs(k: K, r: K)
    requires Fewer(k, r)
    ensures r.tcbs.Keys <= k.tcbs.Keys && forall t :: t in r.tcbs ==> r.tcbs[t] == k.tcbs[t]
  {
  }

  lemma EndsProcessIs(k: K, h: nat, p: nat)
    requires h < |k.slots| && k.slots[h].kind == ThreadHandle && k.slots[h].owner == p && p in k.pcbs
    ensures EndsProcess(k, h, p) <==> k.pcbs[p].mainthread == k.slots[h].data
    ensures forall q :: EndsProcess(k, h, q) ==> q == p
  {
  }

  lemma OneCloses(k: K, r: K, h: nat)
    requires h < |k.slots| && r.slots == k.slots[h := EMPTY] && r.pcbs == k.pcbs && Survive(k, r, h) && forall p :: !EndsProcess(k, h, p)
    ensures Closes(k, r, h)
  {
    hide Survive, EndsProcess;
  }

  lemma AllClose(k: K, r: K, h: nat, p: nat)
    requires h < |k.slots| && r.pcbs == k.pcbs - {p} && Survive(k, r, h) && forall q :: EndsProcess(k, h, q) <==> q == p
    requires |r.slots| == |k.slots| && k.slots[h].owner == p
    requires forall i :: 0 <= i < |k.slots| ==> r.slots[i] == if k.slots[i].owner == p then EMPTY else k.slots[i]
    ensures Closes(k, r, h)
  {
    hide Survive, EndsProcess;
  }

  lemma ResetIs(k: K, h: nat)
    requires h < |k.slots|
    ensures var z := ResetSlot(k, h); z.slots == k.slots[h := EMPTY] && z.pcbs == k.pcbs && z.tcbs == k.tcbs && Fewer(k, z)
  {
  }

  /** A thread that is not the main one of its process. */
  lemma CloseThread(k: K, h: nat)
    requires Ok(k) && UserCall(k) && OwnHandle(k, h) && k.slots[h].kind == ThreadHandle && !EndsProcess(k, h, k.slots[h].owner)
    ensures Closes(k, Destroy(ResetSlot(k, h), k.slots[h]), h)
  {
    hide *;
    OwnIs(k, h);
    var s, z := k.slots[h], ResetSlot(k, h);
    HandleFacts(k, h);
    EndsProcessIs(k, h, s.owner);
    NoProcessEnds(k, h);
    ResetIs(k, h);
    CloseOk(k, h);
    DestroyOne(z, s);
    DestroyFields(z, s.data);
    DestroyFewer(z, s.data);
    FewerTwice(k, z, DestroyTcb(z, s.data));
    FewerSurvive(k, Destroy(z, s), h);
    OneCloses(k, Destroy(z, s), h);
  }

  lemma OwnIs(k: K, h: nat)
    requires OwnHandle(k, h)
    ensures 0 < h < |k.slots| && k.slots[h].kind != NoHandle && k.curr in k.tcbs && k.slots[h].owner == k.tcbs[k.curr].pcb
  {
  }

  lemma DestroyOne(k: K, s: Slot)
    requires s.kind == ThreadHandle && s.data in k.tcbs && k.tcbs[s.data].pcb in k.pcbs && k.pcbs[k.tcbs[s.data].pcb].mainthread != s.data
    ensures Destroy(k, s) == DestroyTcb(k, s.data)
  {
    hide DestroyTcb;
  }

  lemma CloseOther(k: K, h: nat)
    requires Ok(k) && UserCall(k) && OwnHandle(k, h) && k.slots[h].kind != ThreadHandle
    ensures Closes(k, Destroy(ResetSlot(k, h), k.slots[h]), h)
  {
    hide *;
    OwnIs(k, h);
    NoThreadEnds(k, h);
    NoProcessEnds(k, h);
    ResetIs(k, h);
    CloseOk(k, h);
    DestroyNone(ResetSlot(k, h), k.slots[h]);
    FewerSurvive(k, ResetSlot(k, h), h);
    OneCloses(k, ResetSlot(k, h), h);
  }

  lemma NoThreadEnds(k: K, h: nat)
    requires h < |k.slots| && k.slots[h].kind != ThreadHandle
    ensures !EndsProcess(k, h, k.slots[h].owner)
  {
  }

  lemma DestroyNone(k: K, s: Slot)
    requires s.kind != ThreadHandle
    ensures Destroy(k, s) == k
  {
  }

  /** A main thread, and with it its process. */
  lemma CloseMain(k: K, h: nat)
    requires Ok(k) && UserCall(k) && OwnHandle(k, h) && EndsProcess(k, h, k.slots[h].owner)
    ensures Closes(k, Destroy(ResetSlot(k, h), k.slots[h]), h)
  {
    hide *;
    OwnIs(k, h);
    EndsThread(k, h, k.slots[h].owner);
    var s, z := k.slots[h], ResetSlot(k, h);
    HandleFacts(k, h);
    ResetIs(k, h);
    var p, d := s.owner, DestroyTcb(z, s.data);
    UserProcess(k, s.data);
    MainEnds(k, h, p);
    CloseOk(k, h);
    MainGone(k, p);
    DestroyFewer(z, s.data);
    DestroyFields(z, s.data);
    DyingSlots(d, p, 1);
    DestroyAll(z, s, p);
    HandlesFewer(d, p, 1);
    var q := DestroyHandles(d, p, 1);
    FewerTwice(k, z, d);
    FewerTwice(k, d, q);
    WithoutProcess(k, q, p);
    FewerIs(d, q);
    FewerIs(z, d);
    FirstSlot(k);
    FewerSurvive(k, Destroy(z, s), h);
    AllClose(k, Destroy(z, s), h, p);
  }

  lemma EndsThread(k: K, h: nat, p: nat)
    requires EndsProcess(k, h, p)
    ensures h < |k.slots| && k.slots[h].kind == ThreadHandle && k.slots[h].owner == p && p in k.pcbs && k.pcbs[p].mainthread == k.slots[h].data
    ensures forall q :: EndsProcess(k, h, q) <==> q == p
  {
  }

  lemma DestroyAll(k: K, s: Slot, p: nat)
    requires s.kind == ThreadHandle && s.data in k.tcbs && k.tcbs[s.data].pcb == p && p in k.pcbs && k.pcbs[p].mainthread == s.data
    ensures var q := DestroyHandles(DestroyTcb(k, s.data), p, 1); Destroy(k, s) == q.(pcbs := q.pcbs - {p})
  {
    hide DestroyTcb, DestroyHandles;
  }

  lemma WithoutProcess(k: K, q: K, p: nat)
    requires Fewer(k, q)
    ensures Fewer(k, q.(pcbs := q.pcbs - {p}))
  {
  }

  lemma FirstSlot(k: K)
    requires Ok(k)
    ensures |k.slots| > 0 && k.slots[0].owner == 0 && 0 !in k.pcbs
  {
  }

  lemma MainEnds(k: K, h: nat, p: nat)
    requires Ok(k) && h < |k.slots| && EndsProcess(k, h, p) && k.slots[h].data in k.tcbs && k.tcbs[k.slots[h].data].pcb == p
    ensures forall t :: Ends(k, h, t) <==> t in k.tcbs && k.tcbs[t].pcb == p
  {
    hide Ok;
  }

  lemma CloseIs(k: K, h: nat)
    requires Ok(k) && UserCall(k) && OwnHandle(k, h)
    ensures Closes(k, Destroy(ResetSlot(k, h), k.slots[h]), h)
  {
    hide Ok, EndsProcess, Closes, Destroy, ResetSlot;
    if EndsProcess(k, h, k.slots[h].owner) {
      CloseMain(k, h);
    } else if k.slots[h].kind == ThreadHandle {
      CloseThread(k, h);
    } else {
      CloseOther(k, h);
    }
  }

  // ---------- every call ----------

  lemma SlotCount(k: K)
    requires Ok(k)
    ensures |k.slots| > 0 && k.curr in k.tcbs
  {
  }

  lemma MutexIs(k: K)
    requires Ok(k) && UserCall(k)
    ensures NewMutex(k, Step(k, CreateMutex))
  {
    hide Ok, FreeHandle, NoneLeft, SlotForNew;
    SlotCount(k);
    SlotIs(k);
  }

  /** Every call, and every tick, has the effect described. */
  lemma StepMeans(k: K, c: Call)
    requires Ok(k) && Enabled(k, c)
    ensures Effect(k, c, Step(k, c))
  {
    hide Ok, NoZero, InOrder, EventsHaveThreads, PickNext, PutToSleep, PutToWait, WakeOne, GetMsg, Post, AddTimer, Destroy, ResetSlot,
         NewTcb, NewMutex, FallsAsleep, JustBlocks, WakesFirst, GetsMsg, PostsTo, SetsTimer, Closes, Ticks, CheckEvents, FreeHandle, NoneLeft, Starts,
         SlotForNew;
    OkOrder(k);
    SlotCount(k);
    SlotIs(k);
    match c
    case Sleep(ms, bits, queued) => SleepIs(k, ms, bits, queued);
    case WaitForMutex(h) => WaitIs(k, h);
    case MutexUnlocked(h) => WakeOneIs(k, h);
    case GetMessage(wait) => GetIs(k, wait);
    case PostMessage(h, m, queued) => PostMessageIs(k, h, m, queued);
    case SetTimer(ms, repeat, cookie, queued) => TimerIs(k, ms, repeat, cookie, queued);
    case CloseHandle(h) =>
      if OwnHandle(k, h) {
        CloseIs(k, h);
      }
    case CreateMutex => MutexIs(k);
    case CreateThread(t, memory) =>
      if SlotForNew(k) < |k.slots| {
        StartsIs(k, k.tcbs[k.curr].pcb, t, SlotForNew(k));
      }
    case Launch(p, t, memory) =>
      if SlotForNew(k) < |k.slots| {
        StartsIs(k, p, t, SlotForNew(k));
      }
    case Tick(now, gs) => TickIs(k, now, gs);
  }
}
