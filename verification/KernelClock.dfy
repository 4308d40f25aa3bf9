/** When sleeping threads wake and timers go off, over whole runs. */
module KernelClock {
  import opened RingQueue
  import opened KernelState
  import opened KernelTimers
  import opened KernelKeeps
  import opened KernelRuns
  import opened KernelWakes
  import opened KernelEffects

  // ---------- one event ----------

  /** An event that happens may be queued again, with the same function; no other event comes or goes. */
  ghost predicate OneLess(k: K, r: K) {
    && k.events != [] && r.now == k.now
    && (forall e :: e in k.events[..|k.events| - 1] ==> e in r.events)
    && (forall e :: e in r.events ==> e in k.events[..|k.events| - 1] || e.func == k.events[|k.events| - 1].func)
  }

  lemma QueuedIn(k: K, r: K, e: Event)
    requires Queued(k, r, e)
    ensures forall x :: x in r.events <==> x in k.events || x == e
  {
    var p: nat :| p <= |k.events| && r.events == k.events[..p] + [e] + k.events[p..];
    assert k.events == k.events[..p] + k.events[p..];
  }

  lemma AlarmAdds(k: K, r: K, x: int, f: Func)
    requires Alarm(k, r, x, f)
    ensures (forall e :: e in k.events ==> e in r.events) && (forall e :: e in r.events ==> e in k.events || e.func == f)
  {
    var e: Event :| e.func == f && (e.time - k.now) * 1000.0 == x as real && Queued(k, r, e);
    hide Queued;
    QueuedIn(k, r, e);
  }

  lemma RepeatsAdds(k: K, r: K, f: Func, again: bool)
    requires Repeats(k, r, f, again)
    ensures r.now == k.now && r.tcbs == k.tcbs
    ensures (forall e :: e in k.events ==> e in r.events) && (forall e :: e in r.events ==> e in k.events || e.func == f)
  {
    if f.repeat && again {
      var x :| Reads(f.ms, x) && Alarm(k, r, x, f);
      hide Reads, Alarm;
      AlarmAdds(k, r, x, f);
    }
  }

  lemma NextLess(k: K, r: K, g: Grant)
    requires HappensNext(k, r, g)
    ensures OneLess(k, r)
  {
    var p := k.(events := k.events[..|k.events| - 1]);
    var f := k.events[|k.events| - 1].func;
    match f
    case WakeThread(t) =>
    case ThreadTimer(t, ms, repeat, cookie) =>
      var q :| Repeats(p, q, f, g.again) && Posted(q, r, t, Msg(4, cookie, 0), g.post);
      RepeatsAdds(p, q, f, g.again);
      PostedSame(q, r, t, Msg(4, cookie, 0), g.post);
    case LogStack =>
      if g.again {
        AlarmAdds(p, r, 10000, LogStack);
      }
  }

  lemma PostedSame(k: K, r: K, t: nat, m: Msg, queued: bool)
    requires Posted(k, r, t, m, queued)
    ensures r.events == k.events && r.now == k.now
    ensures forall u :: u in k.tcbs && (k.tcbs[u].run != Blocked || k.tcbs[u].wait != WaitingForMsg) ==> u in r.tcbs && r.tcbs[u] == k.tcbs[u]
  {
  }

  /** Thread `t` is ready. */
  ghost predicate Awake(k: K, t: nat) {
    t in k.tcbs && k.tcbs[t].run == Ready
  }

  /** What happens to a thread that sleeps, and to one that is ready. */
  lemma NextThread(k: K, r: K, g: Grant, t: nat)
    requires HappensNext(k, r, g)
    ensures Awake(k, t) ==> Awake(r, t)
    ensures Sleeps(k, t) ==> if k.events[|k.events| - 1].func == WakeThread(t) then Awake(r, t) else Sleeps(r, t) && r.tcbs[t] == k.tcbs[t]
  {
    var p := k.(events := k.events[..|k.events| - 1]);
    var f := k.events[|k.events| - 1].func;
    hide Leaves, Alarm;
    match f
    case WakeThread(u) =>
    case ThreadTimer(u, ms, repeat, cookie) =>
      var q :| Repeats(p, q, f, g.again) && Posted(q, r, u, Msg(4, cookie, 0), g.post);
      RepeatsAdds(p, q, f, g.again);
      PostedSame(q, r, u, Msg(4, cookie, 0), g.post);
    case LogStack =>
  }

  // ---------- one tick ----------

  lemma ShorterTrace(ks: seq<K>, gs: seq<Grant>)
    requires HappenAll(ks, gs) && |ks| > 1
    ensures HappenAll(ks[1..], Rest(gs)) && HappensNext(ks[0], ks[1], GrantAt(gs, 0))
  {
    var qs := ks[1..];
    hide HappensNext, NoneDue;
    forall i | 0 <= i < |qs| - 1
      ensures HappensNext(qs[i], qs[i + 1], GrantAt(Rest(gs), i))
    {
      assert HappensNext(ks[i + 1], ks[i + 2], GrantAt(gs, i + 1)) && GrantAt(gs, i + 1) == GrantAt(Rest(gs), i);
    }
  }

  lemma NoneDueIn(k: K, e: Event)
    requires NoneDue(k) && e in k.events
    ensures e.time > k.now
  {
  }

  lemma LastOne(k: K, e: Event)
    requires k.events != [] && e in k.events
    ensures e == k.events[|k.events| - 1] || e in k.events[..|k.events| - 1]
  {
  }

  /** Every due event happens in a tick, and only due ones do; an event that is not due stays. */
  lemma {:induction false} EventHappens(ks: seq<K>, gs: seq<Grant>, e: Event)
    requires HappenAll(ks, gs) && e in ks[0].events
    ensures if e.time <= ks[0].now then exists i :: 0 <= i < |ks| - 1 && ks[i].events != [] && ks[i].events[|ks[i].events| - 1] == e
            else e in ks[|ks| - 1].events
  {
    hide HappensNext, NoneDue;
    if |ks| == 1 {
      NoneDueIn(ks[0], e);
    } else {
      ShorterTrace(ks, gs);
      NextLess(ks[0], ks[1], GrantAt(gs, 0));
      NextDue(ks[0], ks[1], GrantAt(gs, 0));
      LastOne(ks[0], e);
      if e in ks[1].events {
        EventHappens(ks[1..], Rest(gs), e);
        if e.time <= ks[0].now {
          var i :| 0 <= i < |ks[1..]| - 1 && ks[1..][i].events != [] && ks[1..][i].events[|ks[1..][i].events| - 1] == e;
          assert ks[i + 1] == ks[1..][i];
        }
      } else {
        assert ks[0].events[|ks[0].events| - 1] == e;
      }
    }
  }

  lemma NextDue(k: K, r: K, g: Grant)
    requires HappensNext(k, r, g)
    ensures k.events != [] && k.events[|k.events| - 1].time <= k.now
  {
  }

  /** An event that wakes thread `t` is due at `now`. */
  ghost predicate Rings(k: K, t: nat, now: real) {
    exists e :: e in k.events && e.func == WakeThread(t) && e.time <= now
  }

  /** Thread `t` is as it was, and so are the events that wake it. */
  ghost predicate SleepsOn(k: K, r: K, t: nat) {
    && t in k.tcbs && t in r.tcbs && r.tcbs[t] == k.tcbs[t]
    && forall e: Event :: e.func == WakeThread(t) ==> (e in r.events <==> e in k.events)
  }

  lemma SleepsOnTwice(k: K, m: K, r: K, t: nat)
    requires SleepsOn(k, m, t) && SleepsOn(m, r, t)
    ensures SleepsOn(k, r, t)
  {
  }

  lemma {:induction false} TraceReady(ks: seq<K>, gs: seq<Grant>, t: nat)
    requires HappenAll(ks, gs) && Awake(ks[0], t)
    ensures Awake(ks[|ks| - 1], t)
  {
    hide HappensNext, NoneDue, Awake;
    if |ks| > 1 {
      ShorterTrace(ks, gs);
      NextThread(ks[0], ks[1], GrantAt(gs, 0), t);
      TraceReady(ks[1..], Rest(gs), t);
    }
  }

  /** A sleeping thread wakes in a tick exactly if an event to wake it is due. */
  lemma {:induction false} TraceWakes(ks: seq<K>, gs: seq<Grant>, t: nat)
    requires HappenAll(ks, gs) && Sleeps(ks[0], t)
    ensures if Rings(ks[0], t, ks[0].now) then Awake(ks[|ks| - 1], t) else SleepsOn(ks[0], ks[|ks| - 1], t)
  {
    hide HappensNext, NoneDue, Awake, Sleeps;
    if |ks| == 1 {
      NoRing(ks[0], t);
      SleepsSame(ks[0], t);
    } else {
      ShorterTrace(ks, gs);
      NextLess(ks[0], ks[1], GrantAt(gs, 0));
      NextDue(ks[0], ks[1], GrantAt(gs, 0));
      NextThread(ks[0], ks[1], GrantAt(gs, 0), t);
      LastIn(ks[0]);
      if ks[0].events[|ks[0].events| - 1].func == WakeThread(t) {
        TraceReady(ks[1..], Rest(gs), t);
      } else {
        SleepsSame(ks[0], t);
        SleepsSame(ks[1], t);
        SameRings(ks[0], ks[1], t);
        TraceWakes(ks[1..], Rest(gs), t);
        hide Rings, SleepsOn;
        if !Rings(ks[0], t, ks[0].now) {
          SleepsOnTwice(ks[0], ks[1], ks[|ks| - 1], t);
        }
      }
    }
  }

  lemma LastIn(k: K)
    requires k.events != []
    ensures k.events[|k.events| - 1] in k.events
  {
  }

  lemma NoRing(k: K, t: nat)
    requires NoneDue(k)
    ensures !Rings(k, t, k.now)
  {
    forall e | e in k.events
      ensures e.time > k.now
    {
      NoneDueIn(k, e);
    }
  }

  lemma SleepsSame(k: K, t: nat)
    requires Sleeps(k, t)
    ensures t in k.tcbs && SleepsOn(k, k, t)
  {
  }

  lemma SameRings(k: K, r: K, t: nat)
    requires OneLess(k, r) && k.events[|k.events| - 1].func != WakeThread(t) && t in k.tcbs && t in r.tcbs && r.tcbs[t] == k.tcbs[t]
    ensures SleepsOn(k, r, t) && (Rings(k, t, k.now) <==> Rings(r, t, r.now))
  {
    forall e: Event | e.func == WakeThread(t)
      ensures e in r.events <==> e in k.events
    {
      if e in k.events {
        LastOne(k, e);
      }
      assert e in k.events[..|k.events| - 1] ==> e in k.events;
    }
  }

  // ---------- the other calls ----------

  /** The search for a thread to wake stops at `t`, which sleeps: its wait data, the time to wake up, happens to look
      like the handle. */
  ghost predicate Mistakes(k: K, c: Call, t: nat) {
    && c.MutexUnlocked? && MutexOf(k, c.h)
    && exists i: nat :: Listed(k, i, c.h) && (forall j: nat :: j < i ==> !Listed(k, j, c.h)) && k.order[i] == t
  }

  lemma SleeperIsOther(k: K, t: nat)
    requires Ok(k) && Sleeps(k, t)
    ensures t != k.curr && t !in k.ready
  {
  }

  lemma BlocksOther(k: K, r: K, wait: WaitType, data: nat, t: nat)
    requires Blocks(k, r, wait, data) && t != k.curr && t in k.tcbs
    ensures t in r.tcbs && r.tcbs[t] == k.tcbs[t]
  {
  }

  lemma SameSleeps(k: K, r: K, t: nat)
    requires t in k.tcbs && t in r.tcbs && r.tcbs[t] == k.tcbs[t] && r.events == k.events
    ensures SleepsOn(k, r, t)
  {
  }

  lemma AlarmSleeps(k: K, r: K, x: int, f: Func, t: nat)
    requires Alarm(k, r, x, f) && f != WakeThread(t) && t in k.tcbs && t in r.tcbs && r.tcbs[t] == k.tcbs[t]
    ensures SleepsOn(k, r, t)
  {
    hide Alarm;
    AlarmAdds(k, r, x, f);
  }

  lemma SleepSleeps(k: K, r: K, ms: nat, bits: nat, queued: bool, t: nat)
    requires FallsAsleep(k, r, ms, bits, queued) && t != k.curr && t in k.tcbs
    ensures SleepsOn(k, r, t)
  {
    hide Blocks, Alarm, SleepsOn, Reads;
    BlocksOther(k, r, Sleeping, bits, t);
    if queued {
      var x :| Reads(ms, x) && Alarm(k, r, x, WakeThread(k.curr));
      AlarmSleeps(k, r, x, WakeThread(k.curr), t);
    } else {
      SameSleeps(k, r, t);
    }
  }

  lemma WakeSleeps(k: K, r: K, h: nat, t: nat)
    requires WakesFirst(k, r, h) && t in k.tcbs
    requires !exists i: nat :: Listed(k, i, h) && (forall j: nat :: j < i ==> !Listed(k, j, h)) && k.order[i] == t
    ensures SleepsOn(k, r, t)
  {
    hide Listed, Leaves;
    if exists i: nat :: Listed(k, i, h) {
      var i: nat :| Listed(k, i, h);
      var n := FirstListed(k, h, i);
    }
  }

  lemma {:induction false} FirstListed(k: K, h: nat, i: nat) returns (n: nat)
    requires Listed(k, i, h)
    ensures Listed(k, n, h) && forall j: nat :: j < n ==> !Listed(k, j, h)
    decreases i
  {
    hide Listed;
    n := i;
    if exists j: nat :: j < i && Listed(k, j, h) {
      var j: nat :| j < i && Listed(k, j, h);
      n := FirstListed(k, h, j);
    }
  }

  lemma PostSleeps(k: K, r: K, h: nat, m: Msg, queued: bool, t: nat)
    requires PostsTo(k, r, h, m, queued) && Sleeps(k, t)
    ensures SleepsOn(k, r, t)
  {
    hide Wakes;
    if u :| HandleFor(k, u, h) {
      hide HandleFor;
      assert Posted(k, r, u, m, queued);
      PostedSame(k, r, u, m, queued);
    }
  }

  lemma TimerSleeps(k: K, r: K, ms: nat, repeat: bool, cookie: nat, queued: bool, t: nat)
    requires SetsTimer(k, r, ms, repeat, cookie, queued) && t in k.tcbs
    ensures SleepsOn(k, r, t)
  {
    hide Alarm, SleepsOn;
    var p, x := k.tcbs[k.curr].pcb, ms % 0x8000_0000;
    if queued && k.pcbs[p].timers < 10 {
      AlarmSleeps(k, r, x, ThreadTimer(k.curr, x, repeat, cookie), t);
    } else {
      SameSleeps(k, r, t);
    }
  }

  lemma CloseSleeps(k: K, r: K, h: nat, t: nat)
    requires Closes(k, r, h) && t in r.tcbs
    ensures SleepsOn(k, r, t)
  {
    hide Ends, Frees, EndsProcess;
  }

  lemma StartSleeps(k: K, r: K, p: nat, x: nat, h: nat, t: nat)
    requires Starts(k, r, p, x, h) && t in k.tcbs && x !in k.tcbs
    ensures SleepsOn(k, r, t)
  {
  }

  lemma NewSleeps(k: K, r: K, p: nat, x: nat, memory: bool, t: nat)
    requires |k.slots| > 0 && t in k.tcbs && x !in k.tcbs
    requires NewThread(k, r, x, memory) || NewProcess(k, r, p, x, memory)
    ensures SleepsOn(k, r, t)
  {
    hide Starts, SleepsOn, FreeHandle, NoneLeft;
    SameSleeps(k, k, t);
    if memory && !NoneLeft(k) {
      SlotIs(k);
      var h := SlotForNew(k);
      assert FreeHandle(k, h);
      if NewThread(k, r, x, memory) {
        StartSleeps(k, r, k.tcbs[k.curr].pcb, x, h, t);
      } else {
        StartSleeps(k, r, p, x, h, t);
      }
    }
  }

  lemma MutexSleeps(k: K, r: K, t: nat)
    requires |k.slots| > 0 && NewMutex(k, r) && t in k.tcbs
    ensures SleepsOn(k, r, t)
  {
    hide FreeHandle, NoneLeft;
    SlotIs(k);
    if !NoneLeft(k) {
      assert FreeHandle(k, SlotForNew(k));
    }
  }

  /** Whether call `c` lets thread `t` sleep on: it is no tick at which an event for it is due, and no search for a
      thread to wake that stops at it. */
  ghost predicate Spares(k: K, c: Call, t: nat) {
    !Mistakes(k, c, t) && (c.Tick? ==> !Rings(k, t, c.now))
  }

  lemma TickSleeps(k: K, r: K, now: real, gs: seq<Grant>, t: nat)
    requires Ticks(k, r, now, gs) && Sleeps(k, t)
    ensures if Rings(k, t, now) then Awake(r, t) else SleepsOn(k, r, t)
  {
    var ks: seq<K> :| HappenAll(ks, gs) && ks[0] == k.(now := now)
                      && Turns(ks[|ks| - 1].ready, r) && r == ks[|ks| - 1].(ready := r.ready, curr := r.curr);
    hide HappenAll, Turns;
    TraceWakes(ks, gs, t);
  }

  lemma SleepsThere(k: K, t: nat)
    requires Sleeps(k, t)
    ensures t in k.tcbs
  {
  }

  lemma UnlockSleeps(k: K, r: K, h: nat, t: nat)
    requires t in k.tcbs && Spares(k, MutexUnlocked(h), t) && if MutexOf(k, h) then WakesFirst(k, r, h) else r == k
    ensures SleepsOn(k, r, t)
  {
    hide MutexOf, WakesFirst, SleepsOn, Listed;
    SameSleeps(k, k, t);
    if MutexOf(k, h) {
      WakeSleeps(k, r, h, t);
    }
  }

  /** New objects have addresses of their own. */
  predicate Fresh(k: K, c: Call) {
    match c
    case CreateThread(x, memory) => x !in k.tcbs
    case Launch(p, x, memory) => x !in k.tcbs
    case _ => true
  }

  lemma EffectSleeps(k: K, c: Call, r: K, t: nat)
    requires Effect(k, c, r) && Fresh(k, c) && |k.slots| > 0 && Sleeps(k, t) && t in k.tcbs && t in r.tcbs && t != k.curr
    requires SleepsOn(k, k, t)
    ensures Spares(k, c, t) ==> SleepsOn(k, r, t)
    ensures c.Tick? && Rings(k, t, c.now) ==> Awake(r, t)
  {
    hide Sleeps, FallsAsleep, JustBlocks, WakesFirst, GetsMsg, PostsTo, SetsTimer, Closes, NewMutex, NewThread, NewProcess, Ticks, Awake,
         SleepsOn, Rings, MutexOf, OwnHandle, Mistakes;
    match c
    case Sleep(ms, bits, queued) => SleepSleeps(k, r, ms, bits, queued, t);
    case WaitForMutex(h) =>
      if MutexOf(k, h) {
        BlockSleeps(k, r, WaitingForMutex, h, t);
      }
    case MutexUnlocked(h) =>
      if Spares(k, c, t) {
        UnlockSleeps(k, r, h, t);
      }
    case GetMessage(wait) => GetSleeps(k, r, wait, t);
    case PostMessage(h, m, queued) => PostSleeps(k, r, h, m, queued, t);
    case SetTimer(ms, repeat, cookie, queued) => TimerSleeps(k, r, ms, repeat, cookie, queued, t);
    case CloseHandle(h) =>
      if OwnHandle(k, h) {
        CloseSleeps(k, r, h, t);
      }
    case CreateMutex => MutexSleeps(k, r, t);
    case CreateThread(x, memory) => NewSleeps(k, r, 0, x, memory, t);
    case Launch(p, x, memory) => NewSleeps(k, r, p, x, memory, t);
    case Tick(now, gs) => TickSleeps(k, r, now, gs, t);
  }

  lemma EnabledFresh(k: K, c: Call)
    requires Enabled(k, c)
    ensures Fresh(k, c)
  {
  }

  /** A step that spares a sleeping thread lets it sleep on; a tick that does not, wakes it. */
  lemma StepSleeps(k: K, c: Call, t: nat)
    requires Ok(k) && Enabled(k, c) && Sleeps(k, t) && t in Step(k, c).tcbs
    ensures Spares(k, c, t) ==> SleepsOn(k, Step(k, c), t) && Sleeps(Step(k, c), t)
    ensures c.Tick? && Rings(k, t, c.now) ==> Awake(Step(k, c), t)
  {
    hide Step, Ok, Enabled, Effect, Fresh, Spares, Awake, Rings;
    StepMeans(k, c);
    SlotCount(k);
    SleeperIsOther(k, t);
    SleepsThere(k, t);
    SameSleeps(k, k, t);
    EnabledFresh(k, c);
    EffectSleeps(k, c, Step(k, c), t);
  }

  lemma BlockSleeps(k: K, r: K, wait: WaitType, data: nat, t: nat)
    requires JustBlocks(k, r, wait, data) && t != k.curr && t in k.tcbs
    ensures SleepsOn(k, r, t)
  {
    hide Blocks;
    BlocksOther(k, r, wait, data, t);
  }

  lemma GetSleeps(k: K, r: K, wait: bool, t: nat)
    requires GetsMsg(k, r, wait) && t != k.curr && t in k.tcbs
    ensures SleepsOn(k, r, t)
  {
    hide JustBlocks, RestMail;
    if Mail(k, k.curr) == [] && wait {
      BlockSleeps(k, r, WaitingForMsg, k.tcbs[k.curr].mtx, t);
    }
  }

  // ---------- runs ----------

  /** The one event that wakes thread `t`, and its time. */
  ghost predicate WakesAt(k: K, t: nat, time: real) {
    && (exists e :: e in k.events && e.func == WakeThread(t))
    && forall e :: e in k.events && e.func == WakeThread(t) ==> e.time == time
  }

  lemma WakesAtRings(k: K, t: nat, time: real, now: real)
    requires WakesAt(k, t, time)
    ensures Rings(k, t, now) <==> time <= now
  {
    var e :| e in k.events && e.func == WakeThread(t);
    assert e.time == time;
  }

  lemma WakesAtSame(k: K, r: K, t: nat, time: real)
    requires WakesAt(k, t, time) && SleepsOn(k, r, t)
    ensures WakesAt(r, t, time)
  {
    var e :| e in k.events && e.func == WakeThread(t);
    assert e in r.events;
  }

  /** No event from an earlier sleep is left over. */
  ghost predicate NoAlarm(k: K, t: nat) {
    forall e :: e in k.events ==> e.func != WakeThread(t)
  }

  lemma AlarmStarts(k: K, r: K, x: int, t: nat, time: real)
    requires Alarm(k, r, x, WakeThread(t)) && (time - k.now) * 1000.0 == x as real && NoAlarm(k, t)
    ensures WakesAt(r, t, time)
  {
    var e: Event :| e.func == WakeThread(t) && (e.time - k.now) * 1000.0 == x as real && Queued(k, r, e);
    hide Queued;
    QueuedIn(k, r, e);
  }

  lemma AsleepStarts(k: K, r: K, ms: nat, bits: nat, x: int, time: real)
    requires FallsAsleep(k, r, ms, bits, true) && Reads(ms, x) && (time - k.now) * 1000.0 == x as real && NoAlarm(k, k.curr)
    ensures Sleeps(r, k.curr) && WakesAt(r, k.curr, time)
  {
    hide Leaves, Turns, Alarm, WakesAt, NoAlarm, Reads;
    var y :| Reads(ms, y) && Alarm(k, r, y, WakeThread(k.curr));
    OneReading(ms, x, y);
    AlarmStarts(k, r, x, k.curr, time);
  }

  /** A thread that goes to sleep for `x` milliseconds. */
  lemma SleepStarts(k: K, c: Call, x: int, time: real)
    requires Ok(k) && c.Sleep? && c.queued && Enabled(k, c) && Reads(c.ms, x) && (time - k.now) * 1000.0 == x as real && NoAlarm(k, k.curr)
    ensures Sleeps(Step(k, c), k.curr) && WakesAt(Step(k, c), k.curr, time)
  {
    hide Ok, Step, Enabled, FallsAsleep, Reads, NoAlarm, Sleeps, WakesAt;
    StepMeans(k, c);
    AsleepStarts(k, Step(k, c), c.ms, c.bits, x, time);
  }

  lemma OneReading(ms: nat, x: int, y: int)
    requires Reads(ms, x) && Reads(ms, y)
    ensures x == y
  {
    var a, b := (ms - x) / 0x1_0000_0000, (ms - y) / 0x1_0000_0000;
    assert ms - x == 0x1_0000_0000 * a && ms - y == 0x1_0000_0000 * b;
  }

  lemma RunStep(ks: seq<K>, cs: seq<Call>, n: nat)
    requires Run(ks, cs) && n < |cs|
    ensures Enabled(ks[n], cs[n]) && ks[n + 1] == Step(ks[n], cs[n])
  {
  }

  /** Thread `t` is there throughout; between the first and the last of `n` steps no tick is as late as `time`, and it is
      not taken for a thread that waits for a mutex. */
  ghost predicate LeftAlone(ks: seq<K>, cs: seq<Call>, t: nat, n: nat, time: real)
    requires n < |ks| == |cs| + 1
  {
    && (forall i :: 0 < i < n ==> (cs[i].Tick? ==> cs[i].now < time) && !Mistakes(ks[i], cs[i], t))
    && forall i :: 0 <= i <= n ==> t in ks[i].tcbs
  }

  lemma LeftAloneStep(ks: seq<K>, cs: seq<Call>, t: nat, n: nat, time: real)
    requires 0 < n < |cs| && |ks| == |cs| + 1 && LeftAlone(ks, cs, t, n + 1, time)
    ensures LeftAlone(ks, cs, t, n, time) && t in ks[n + 1].tcbs
    ensures (cs[n].Tick? ==> cs[n].now < time) && !Mistakes(ks[n], cs[n], t)
  {
    hide Mistakes;
  }

  lemma SparesIs(k: K, c: Call, t: nat, time: real)
    requires WakesAt(k, t, time) && !Mistakes(k, c, t) && (c.Tick? ==> c.now < time)
    ensures Spares(k, c, t)
  {
    hide WakesAt, Mistakes, Rings;
    if c.Tick? {
      WakesAtRings(k, t, time, c.now);
    }
  }

  lemma {:induction false} SleepsUntil(ks: seq<K>, cs: seq<Call>, t: nat, n: nat, time: real)
    requires Run(ks, cs) && 0 < n <= |cs| && Ok(ks[0]) && Sleeps(ks[1], t) && WakesAt(ks[1], t, time) && LeftAlone(ks, cs, t, n, time)
    ensures Sleeps(ks[n], t) && WakesAt(ks[n], t, time)
  {
    hide *;
    if n > 1 {
      RunLong(ks, cs);
      LeftAloneStep(ks, cs, t, n - 1, time);
      SleepsUntil(ks, cs, t, n - 1, time);
      RunOk(ks, cs, n - 1);
      RunStep(ks, cs, n - 1);
      SparesIs(ks[n - 1], cs[n - 1], t, time);
      StepSleeps(ks[n - 1], cs[n - 1], t);
      WakesAtSame(ks[n - 1], ks[n], t, time);
    }
  }

  lemma RunLong(ks: seq<K>, cs: seq<Call>)
    requires Run(ks, cs)
    ensures |ks| == |cs| + 1
  {
  }

  /** A sleep of `x` milliseconds ends at the first tick that is not earlier than that: until then the thread
      sleeps, whatever is called, unless it is destroyed or taken for one that waits for a mutex; at that tick it
      wakes. */
  lemma SleepEnds(ks: seq<K>, cs: seq<Call>, t: nat, n: nat, x: int, time: real)
    requires Run(ks, cs) && 0 < n < |cs| && Ok(ks[0]) && t == ks[0].curr && NoAlarm(ks[0], t)
    requires cs[0].Sleep? && cs[0].queued && Reads(cs[0].ms, x) && (time - ks[0].now) * 1000.0 == x as real
    requires LeftAlone(ks, cs, t, n, time) && cs[n].Tick? && t in ks[n + 1].tcbs
    ensures Sleeps(ks[n], t)
    ensures if cs[n].now < time then Sleeps(ks[n + 1], t) else Awake(ks[n + 1], t)
  {
    hide *;
    RunLong(ks, cs);
    RunStep(ks, cs, 0);
    SleepStarts(ks[0], cs[0], x, time);
    SleepsUntil(ks, cs, t, n, time);
    RunOk(ks, cs, n);
    RunStep(ks, cs, n);
    TickMistakes(ks[n], cs[n], t);
    if cs[n].now < time {
      SparesIs(ks[n], cs[n], t, time);
    } else {
      WakesAtRings(ks[n], t, time, cs[n].now);
    }
    StepSleeps(ks[n], cs[n], t);
  }

  lemma TickMistakes(k: K, c: Call, t: nat)
    requires c.Tick?
    ensures !Mistakes(k, c, t)
  {
  }

  // ---------- timers ----------

  /** Event `e` happens in a tick. */
  ghost predicate GoesOff(k: K, now: real, gs: seq<Grant>, e: Event) {
    exists ks: seq<K>, i: nat :: HappenAll(ks, gs) && ks[0] == k.(now := now) && i + 1 < |ks| && HappensAt(ks[i], ks[i + 1], e, GrantAt(gs, i))
  }

  ghost predicate HappensAt(k: K, r: K, e: Event, g: Grant) {
    k.events != [] && k.events[|k.events| - 1] == e && HappensNext(k, r, g)
  }

  /** The thread an event is for is there. */
  predicate Kept(k: K, e: Event) {
    e.func.LogStack? || e.func.tcb in k.tcbs
  }

  lemma NewKeeps(k: K, c: Call, r: K)
    requires |k.slots| > 0 && Effect(k, c, r) && (c.CreateMutex? || c.CreateThread? || c.Launch?)
    ensures r.events == k.events
  {
    hide FreeHandle, NoneLeft;
    SlotIs(k);
    if !NoneLeft(k) {
      assert FreeHandle(k, SlotForNew(k));
    }
  }

  lemma AlarmInKeeps(k: K, r: K, ms: nat, f: Func)
    requires AlarmIn(k, r, ms, f)
    ensures forall e :: e in k.events ==> e in r.events
  {
    var x :| Reads(ms, x) && Alarm(k, r, x, f);
    hide Reads, Alarm;
    AlarmAdds(k, r, x, f);
  }

  lemma PostKeeps(k: K, r: K, h: nat, m: Msg, queued: bool)
    requires PostsTo(k, r, h, m, queued)
    ensures r.events == k.events
  {
    hide Wakes, HandleFor;
    if u :| HandleFor(k, u, h) {
      PostedSame(k, r, u, m, queued);
    }
  }

  lemma UnlockKeeps(k: K, r: K, h: nat)
    requires WakesFirst(k, r, h)
    ensures r.events == k.events
  {
    hide Listed, Leaves;
    if exists i: nat :: Listed(k, i, h) {
      var i: nat :| Listed(k, i, h);
      var n := FirstListed(k, h, i);
    }
  }

  lemma TickKeeps(k: K, r: K, now: real, gs: seq<Grant>, e: Event)
    requires Ticks(k, r, now, gs) && e in k.events
    ensures if now < e.time then e in r.events else GoesOff(k, now, gs, e)
  {
    var ks: seq<K> :| HappenAll(ks, gs) && ks[0] == k.(now := now)
                      && Turns(ks[|ks| - 1].ready, r) && r == ks[|ks| - 1].(ready := r.ready, curr := r.curr);
    hide Turns, HappensNext, NoneDue;
    EventHappens(ks, gs, e);
    if now >= e.time {
      var i :| 0 <= i < |ks| - 1 && ks[i].events != [] && ks[i].events[|ks[i].events| - 1] == e;
      assert HappensAt(ks[i], ks[i + 1], e, GrantAt(gs, i));
    }
  }

  /** An event stays in the queue until the first tick that is not earlier than its time, and happens then, unless
      its thread is destroyed before. */
  lemma EffectKeeps(k: K, c: Call, r: K, e: Event)
    requires Effect(k, c, r) && |k.slots| > 0 && e in k.events && Kept(r, e)
    ensures if c.Tick? && c.now >= e.time then GoesOff(k, c.now, c.gs, e) else e in r.events
  {
    hide Blocks, AlarmIn, Alarm, WakesFirst, PostsTo, NewMutex, NewThread, NewProcess, Ticks, MutexOf, OwnHandle, GoesOff, Ends, EndsProcess,
         Frees, RestMail;
    match c
    case Sleep(ms, bits, queued) =>
      if queued {
        AlarmInKeeps(k, r, ms, WakeThread(k.curr));
      }
    case MutexUnlocked(h) =>
      if MutexOf(k, h) {
        UnlockKeeps(k, r, h);
      }
    case PostMessage(h, m, queued) => PostKeeps(k, r, h, m, queued);
    case SetTimer(ms, repeat, cookie, queued) => TimerKeeps(k, r, ms, repeat, cookie, queued);
    case CloseHandle(h) =>
    case CreateMutex => NewKeeps(k, c, r);
    case CreateThread(x, memory) => NewKeeps(k, c, r);
    case Launch(p, x, memory) => NewKeeps(k, c, r);
    case Tick(now, gs) => TickKeeps(k, r, now, gs, e);
    case WaitForMutex(h) =>
    case GetMessage(wait) =>
  }

  lemma TimerKeeps(k: K, r: K, ms: nat, repeat: bool, cookie: nat, queued: bool)
    requires SetsTimer(k, r, ms, repeat, cookie, queued)
    ensures forall e :: e in k.events ==> e in r.events
  {
    hide Alarm;
    var x := ms % 0x8000_0000;
    if queued && k.pcbs[k.tcbs[k.curr].pcb].timers < 10 {
      AlarmAdds(k, r, x, ThreadTimer(k.curr, x, repeat, cookie));
    }
  }

  lemma {:induction false} EventWaits(ks: seq<K>, cs: seq<Call>, e: Event, m: nat, n: nat)
    requires Run(ks, cs) && m <= n < |ks| && Ok(ks[0]) && e in ks[m].events
    requires forall i :: m <= i <= n ==> Kept(ks[i], e)
    requires forall i :: m <= i < n && cs[i].Tick? ==> cs[i].now < e.time
    ensures e in ks[n].events
    decreases n - m
  {
    hide Ok, Step, Enabled, Effect, Kept, GoesOff;
    if m < n {
      EventWaits(ks, cs, e, m, n - 1);
      RunOk(ks, cs, n - 1);
      RunStep(ks, cs, n - 1);
      StepMeans(ks[n - 1], cs[n - 1]);
      SlotCount(ks[n - 1]);
      EffectKeeps(ks[n - 1], cs[n - 1], ks[n], e);
    }
  }

  lemma TimerStarts(k: K, r: K, ms: nat, repeat: bool, cookie: nat) returns (e: Event)
    requires SetsTimer(k, r, ms, repeat, cookie, true) && k.pcbs[k.tcbs[k.curr].pcb].timers < 10
    ensures e in r.events && e.func == ThreadTimer(k.curr, ms % 0x8000_0000, repeat, cookie)
    ensures (e.time - k.now) * 1000.0 == (ms % 0x8000_0000) as real
  {
    var x := ms % 0x8000_0000;
    e :| e.func == ThreadTimer(k.curr, x, repeat, cookie) && (e.time - k.now) * 1000.0 == x as real && Queued(k, r, e);
    hide Queued;
    QueuedIn(k, r, e);
  }

  /** A timer of `ms` milliseconds goes off at the first tick that is not earlier than that, and stays queued until
      then, whatever is called, unless its thread is destroyed; a repeating one is then set again for as long
      (`Happens`, `Repeats`). */
  lemma TimerGoesOff(ks: seq<K>, cs: seq<Call>, n: nat) returns (e: Event)
    requires Run(ks, cs) && 0 < n < |cs| && Ok(ks[0]) && UserCall(ks[0]) && cs[0].SetTimer? && cs[0].queued && cs[n].Tick?
    requires ks[0].curr in ks[0].tcbs && ks[0].tcbs[ks[0].curr].pcb in ks[0].pcbs && ks[0].pcbs[ks[0].tcbs[ks[0].curr].pcb].timers < 10
    requires forall i :: 0 <= i <= n ==> ks[0].curr in ks[i].tcbs
    requires ks[0].curr in ks[n + 1].tcbs
    requires forall i :: 0 < i < n && cs[i].Tick? ==> (cs[i].now - ks[0].now) * 1000.0 < (cs[0].ms % 0x8000_0000) as real
    ensures e in ks[n].events && e.func == ThreadTimer(ks[0].curr, cs[0].ms % 0x8000_0000, cs[0].repeat, cs[0].cookie)
    ensures if (cs[n].now - ks[0].now) * 1000.0 < (cs[0].ms % 0x8000_0000) as real then e in ks[n + 1].events
            else GoesOff(ks[n], cs[n].now, cs[n].gs, e)
  {
    hide Ok, Step, Enabled, GoesOff, SetsTimer;
    RunStep(ks, cs, 0);
    StepMeans(ks[0], cs[0]);
    e := TimerStarts(ks[0], ks[1], cs[0].ms, cs[0].repeat, cs[0].cookie);
    hide Effect;
    EventWaits(ks, cs, e, 1, n);
    RunOk(ks, cs, n);
    RunStep(ks, cs, n);
    StepMeans(ks[n], cs[n]);
    SlotCount(ks[n]);
    EffectKeeps(ks[n], cs[n], ks[n + 1], e);
  }
}
