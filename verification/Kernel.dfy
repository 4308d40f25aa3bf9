/** The kernel as the source writes it: one record of state that every operation updates in place, with
    its ring buffers and its priority queue.  Each operation is proved to do what the step of the same
    name says, so that what is proved about every run of steps holds of it. */
module Kernel {
  import opened RingQueue
  import opened PrioQueue
  import opened KernelState
  import opened KernelTimers
  import opened KernelKeeps
  import opened KernelTree
  import opened KernelRuns
  import opened KernelEffects

  /** Slots in use. */
  function Used(slots: seq<Slot>): nat {
    if slots == [] then 0 else Used(slots[..|slots| - 1]) + if slots[|slots| - 1].kind != NoHandle then 1 else 0
  }

  lemma {:induction false} UsedReset(slots: seq<Slot>, i: nat)
    requires i < |slots|
    ensures Used(slots[i := EMPTY]) == Used(slots) - if slots[i].kind != NoHandle then 1 else 0
  {
    var m := |slots| - 1;
    var z := slots[i := EMPTY];
    if i < m {
      assert z[..m] == slots[..m][i := EMPTY];
      UsedReset(slots[..m], i);
    } else {
      assert z[..m] == slots[..m];
    }
  }

  /** What the kernel's queues hold, and which of them have room: a queue that has none must grow for a
      new element. */
  datatype Held = Held(ready: seq<nat>, events: seq<Event>, msgs: map<nat, seq<Msg>>, eventRoom: bool, msgRoom: set<nat>)

  class Krn {
    var tcbs: map<nat, Tcb>
    var pcbs: map<nat, Pcb>
    /** The message queue of each thread. */
    var queues: map<nat, Ring<Msg>>
    var order: seq<nat>
    const ready: Ring<nat>
    const events: PQueue<Event>
    var slots: seq<Slot>
    var curr: nat
    var idle: nat
    var now: real
    var stamp: nat
    /** The objects of the message queues, and all objects. */
    ghost var mailRepr: set<object>
    ghost var repr: set<object>

    /** The message queues are in order, and none of them shares its buffer with another. */
    ghost predicate Boxes()
      reads this`queues, this`mailRepr, mailRepr
    {
      && (forall t :: t in queues ==>
            queues[t] in mailRepr && queues[t].data in mailRepr && queues[t].Valid() && queues[t].data.Length != 1)
      && (forall t, u :: t in queues && u in queues && t != u ==>
            queues[t] != queues[u] && queues[t].data != queues[u].data)
    }

    /** All queues are in order, and they share nothing. */
    ghost predicate Objects()
      reads this`queues, this`mailRepr, this`repr, repr
    {
      && ready in repr && events in repr && repr == {ready, ready.data, events, events.data} + mailRepr
      && ready.Valid() && ready.data.Length != 1 && events.Valid() && events.cmp == TimedEventCmp
      && Boxes() && {ready, ready.data, events, events.data} !! mailRepr
    }

    ghost function Msgs(): map<nat, seq<Msg>>
      requires Boxes()
      reads this`queues, this`mailRepr, mailRepr
    {
      map t | t in queues :: queues[t].Contents()
    }

    /** The threads whose queue has room for a message. */
    ghost function MsgRoom(): set<nat>
      requires Boxes()
      reads this`queues, this`mailRepr, mailRepr
    {
      set t | t in queues && queues[t].data.Length > 0 && |queues[t].Contents()| < queues[t].data.Length - 1
    }

    ghost function Queues(): (h: Held)
      requires Objects()
      reads this`queues, this`mailRepr, this`repr, repr
      ensures h.msgs.Keys == queues.Keys
    {
      Held(ready.Contents(), events.Contents(), Msgs(), events.size < events.data.Length, MsgRoom())
    }

    ghost predicate Valid()
      reads this, repr
    {
      this !in repr && Objects() && queues.Keys == tcbs.Keys
    }

    /** The state that the theorems about runs are about. */
    ghost function Now(): K
      requires Valid()
      reads this, repr
    {
      K(tcbs, pcbs, Queues().msgs, order, Queues().ready, Queues().events, slots, curr, idle, now, stamp)
    }

    lemma Fields()
      requires Valid()
      ensures && Now().tcbs == tcbs && Now().pcbs == pcbs && Now().order == order && Now().slots == slots
              && Now().curr == curr && Now().idle == idle && Now().now == now && Now().stamp == stamp && this !in repr
    {
    }

    constructor (t: nat, p: nat, now: real)
      requires t != 0 && p != 0
      ensures Valid() && fresh(repr) && Ok(Now()) && Now() == Boot(t, p, now)
    {
      hide Ok, Ring.Contents, Ring.Valid, PQueue.Contents, PQueue.Valid, Boot, Valid, Now, Boxes, Objects, Queues, Msgs, MsgRoom;
      var r := NewReady();
      var q := NewEvents(now);
      var m := new Ring<Msg>();
      tcbs, pcbs, order := Boot(t, p, now).tcbs, Boot(t, p, now).pcbs, [t];
      queues, ready, events := map[t := m], r, q;
      slots := Boot(t, p, now).slots;
      curr, idle, this.now, stamp := t, t, now, 1;
      mailRepr := {m, m.data};
      repr := {r, r.data, q, q.data} + {m, m.data};
      new;
      Started(t, p, now);
    }

    lemma Started(t: nat, p: nat, now: real)
      requires t != 0 && p != 0 && this !in repr && mailRepr !! {ready, ready.data, events, events.data}
      requires ready in repr && events in repr && repr == {ready, ready.data, events, events.data} + mailRepr
      requires ready.Valid() && ready.data.Length != 1 && ready.Contents() == []
      requires events.Valid() && events.cmp == TimedEventCmp && events.Contents() == [Event(now + 10.0, 0, LogStack)]
      requires queues.Keys == {t} && queues[t] in mailRepr && queues[t].data in mailRepr && queues[t].Valid()
      requires queues[t].data.Length == 0 && queues[t].Contents() == []
      requires tcbs == Boot(t, p, now).tcbs && pcbs == Boot(t, p, now).pcbs && slots == Boot(t, p, now).slots
      requires order == [t] && curr == idle == t && this.now == now && stamp == 1
      ensures Valid() && Now() == Boot(t, p, now) && Ok(Now())
    {
      hide Ok, Ring.Contents, Ring.Valid, PQueue.Contents, PQueue.Valid;
      BootOk(t, p, now);
      assert Msgs() == map[t := []];
    }

    static method NewReady() returns (r: Ring<nat>)
      ensures fresh(r) && fresh(r.data) && r.Valid() && r.data.Length == 33 && r.Contents() == []
    {
      r := new Ring<nat>();
      var reserved := r.Reserve(32, true);
    }

    /** The queue of timed events has room for the first one, which logs the use of the stack. */
    static method NewEvents(now: real) returns (q: PQueue<Event>)
      ensures fresh(q) && fresh(q.data) && q.Valid() && q.cmp == TimedEventCmp
      ensures q.Contents() == [Event(now + 10.0, 0, LogStack)]
    {
      CmpIsTotal();
      q := new PQueue<Event>(4, TimedEventCmp);
      var pushed := q.Push(Event(now + 10.0, 0, LogStack), false);
    }

    // ---------- the queues ----------

    method LeaveReady(t: nat)
      requires Objects()
      modifies repr
      ensures Objects() && Queues() == old(Queues()).(ready := Without(old(Queues()).ready, Is(t)))
    {
      hide Without, Ring.Contents, Ring.Valid, PQueue.Contents, PQueue.Valid, Boxes, Msgs, MsgRoom;
      var count := ready.Remove(Is(t));
    }

    /** Append a thread; without memory only where a place is left. */
    method JoinReady(t: nat, memory: bool)
      requires Objects() && this !in repr
      requires memory || (ready.data.Length > 0 && |ready.Contents()| < ready.data.Length - 1)
      modifies this`repr, repr
      ensures Objects() && fresh(repr - old(repr)) && this !in repr
      ensures Queues() == old(Queues()).(ready := old(Queues()).ready + [t])
    {
      hide Ring.Contents, Ring.Valid, PQueue.Contents, PQueue.Valid, Boxes, Msgs, MsgRoom;
      var ok := ready.Push(t, memory);
      repr := {ready, ready.data, events, events.data} + mailRepr;
    }

    method FirstReady() returns (ok: bool, t: nat)
      requires Objects()
      modifies repr
      ensures Objects() && (ok <==> old(Queues()).ready != [])
      ensures ok ==> t == old(Queues()).ready[0] && ready.data.Length > 0 && |ready.Contents()| < ready.data.Length - 1
      ensures Queues() == if ok then old(Queues()).(ready := old(Queues()).ready[1..]) else old(Queues())
    {
      hide Ring.Contents, Ring.Valid, PQueue.Contents, PQueue.Valid, Boxes, Msgs, MsgRoom;
      ready.ContentsFit();
      ok, t := ready.Pop();
    }

    /** Take the first thread out and append it again: it left a place. */
    method RotateReady() returns (ok: bool, t: nat)
      requires Objects() && this !in repr
      modifies this`repr, repr
      ensures Objects() && fresh(repr - old(repr)) && this !in repr
      ensures ok <==> old(Queues()).ready != []
      ensures ok ==> t == old(Queues()).ready[0]
      ensures Queues() == if ok then old(Queues()).(ready := old(Queues()).ready[1..] + [t]) else old(Queues())
    {
      hide Ring.Contents, Ring.Valid, PQueue.Contents, PQueue.Valid, Boxes, Msgs, MsgRoom;
      ok, t := FirstReady();
      if ok {
        JoinReady(t, false);
      }
    }

    method PushEvent(e: Event, memory: bool) returns (ok: bool)
      requires Objects() && this !in repr
      modifies this`repr, repr
      ensures Objects() && fresh(repr - old(repr)) && this !in repr
      ensures ok <==> memory || old(Queues()).eventRoom
      ensures Queues() == if ok then old(Queues()).(events := Insert(old(Queues()).events, e), eventRoom := Queues().eventRoom)
                          else old(Queues())
    {
      hide Insert, Ring.Contents, Ring.Valid, PQueue.Contents, PQueue.Valid, Boxes, Msgs, MsgRoom, Sorted, Inserted, TotalPreorder;
      events.ContentsSorted();
      ghost var es := events.Contents();
      ok := events.Push(e, memory);
      events.ContentsSorted();
      repr := {ready, ready.data, events, events.data} + mailRepr;
      if ok {
        ghost var pos :| Place(TimedEventCmp, es, e, pos) && events.Contents() == Inserted(es, pos, e);
        PushInserts(es, e, pos);
      }
    }

    method DropEvents(t: nat)
      requires Objects()
      modifies repr
      ensures Objects()
      ensures Queues() == old(Queues()).(events := Without(old(Queues()).events, Events(t)), eventRoom := Queues().eventRoom)
    {
      hide Without, Ring.Contents, Ring.Valid, PQueue.Contents, PQueue.Valid, Boxes, Msgs, MsgRoom;
      var count := events.Remove(Events(t));
    }

    /** Append to a message queue, in a buffer that may be new. */
    method PushBox(t: nat, m: Msg, memory: bool) returns (ok: bool)
      requires Boxes() && t in queues && this !in mailRepr
      modifies this`mailRepr, mailRepr
      ensures Boxes() && fresh(mailRepr - old(mailRepr)) && this !in mailRepr
      ensures ok <==> memory || t in old(MsgRoom())
      ensures forall u :: u in queues ==> Msgs()[u] == if ok && u == t then old(Msgs())[u] + [m] else old(Msgs())[u]
    {
      hide Ring.Contents, Ring.Valid;
      ok := queues[t].Push(m, memory);
      label Pushed:
      assert forall u :: u in queues && u != t ==> queues[u].Contents() == old(queues[u].Contents());
      mailRepr := mailRepr + {queues[t].data};
      assert forall u :: u in queues ==> queues[u].Contents() == old@Pushed(queues[u].Contents());
    }

    method PopBox(t: nat) returns (ok: bool, m: Msg)
      requires Boxes() && t in queues && this !in mailRepr
      modifies mailRepr
      ensures Boxes() && (ok <==> old(Msgs())[t] != []) && (ok ==> m == old(Msgs())[t][0])
      ensures forall u :: u in queues ==> Msgs()[u] == if ok && u == t then old(Msgs())[u][1..] else old(Msgs())[u]
    {
      hide Ring.Contents, Ring.Valid;
      ok, m := queues[t].Pop();
    }

    /** The same for all queues together. */
    method PushMail(t: nat, m: Msg, memory: bool) returns (ok: bool)
      requires Objects() && this !in repr && t in queues
      modifies this`mailRepr, this`repr, repr
      ensures Objects() && fresh(repr - old(repr)) && this !in repr
      ensures ok <==> memory || t in old(Queues()).msgRoom
      ensures Queues() == if ok then old(Queues()).(msgs := old(Queues()).msgs[t := old(Queues()).msgs[t] + [m]], msgRoom := Queues().msgRoom)
                          else old(Queues()).(msgRoom := Queues().msgRoom)
    {
      hide Ring.Contents, Ring.Valid, PQueue.Contents, PQueue.Valid, Boxes;
      ghost var was := Msgs();
      ok := PushBox(t, m, memory);
      repr := {ready, ready.data, events, events.data} + mailRepr;
      assert Msgs() == if ok then was[t := was[t] + [m]] else was;
    }

    method PopMail(t: nat) returns (ok: bool, m: Msg)
      requires Objects() && this !in repr && t in queues
      modifies repr
      ensures Objects() && (ok <==> old(Queues()).msgs[t] != [])
      ensures ok ==> m == old(Queues()).msgs[t][0]
      ensures Queues() == old(Queues()).(msgs := if ok then old(Queues()).msgs[t := old(Queues()).msgs[t][1..]] else old(Queues()).msgs,
                                         msgRoom := Queues().msgRoom)
    {
      hide Ring.Contents, Ring.Valid, PQueue.Contents, PQueue.Valid, Boxes;
      ghost var was := Msgs();
      ok, m := PopBox(t);
      assert Msgs() == if ok then was[t := was[t][1..]] else was;
    }

    method AddBox(t: nat, q: Ring<Msg>)
      requires Boxes() && t !in queues && q in mailRepr && q.data in mailRepr
      requires q.Valid() && q.data.Length == 0 && q.Contents() == []
      requires forall u :: u in queues ==> queues[u] != q && queues[u].data != q.data
      modifies this`queues
      ensures Boxes() && queues == old(queues)[t := q]
      ensures forall u :: u in queues ==> Msgs()[u] == if u == t then [] else old(Msgs())[u]
    {
      hide Ring.Contents, Ring.Valid;
      queues := queues[t := q];
      assert forall u :: u in queues ==> queues[u].Contents() == old(queues[t := q][u].Contents());
    }

    method NewBox(t: nat)
      requires Boxes() && this !in mailRepr && t !in queues
      modifies this`queues, this`mailRepr
      ensures Boxes() && fresh(mailRepr - old(mailRepr)) && this !in mailRepr && queues.Keys == old(queues).Keys + {t}
      ensures forall u :: u in queues ==> Msgs()[u] == if u == t then [] else old(Msgs())[u]
    {
      hide Ring.Contents, Ring.Valid;
      var q := new Ring<Msg>();
      label Made:
      assert forall u :: u in queues ==> queues[u].Contents() == old(queues[u].Contents());
      mailRepr := mailRepr + {q, q.data};
      assert forall u :: u in queues ==> queues[u].Contents() == old@Made(queues[u].Contents());
      AddBox(t, q);
    }

    /** A new, empty message queue, which has no buffer yet. */
    method NewMail(t: nat)
      requires Objects() && this !in repr && t !in queues
      modifies this`queues, this`mailRepr, this`repr
      ensures Objects() && fresh(repr - old(repr)) && this !in repr && queues.Keys == old(queues).Keys + {t}
      ensures Queues() == old(Queues()).(msgs := old(Queues()).msgs[t := []], msgRoom := Queues().msgRoom)
    {
      hide Ring.Contents, Ring.Valid, PQueue.Contents, PQueue.Valid, Boxes;
      ghost var was := Msgs();
      NewBox(t);
      assert Msgs() == was[t := []];
      repr := {ready, ready.data, events, events.data} + mailRepr;
    }

    method DropBox(t: nat)
      requires Boxes()
      modifies this`queues
      ensures Boxes() && queues == old(queues) - {t}
      ensures forall u :: u in queues ==> Msgs()[u] == old(Msgs())[u]
    {
      hide Ring.Contents, Ring.Valid;
      queues := queues - {t};
      assert forall u :: u in queues ==> queues[u].Contents() == old(queues[u].Contents());
    }

    method DropMail(t: nat)
      requires Objects() && this !in repr
      modifies this`queues
      ensures Objects() && queues.Keys == old(queues).Keys - {t}
      ensures Queues() == old(Queues()).(msgs := old(Queues()).msgs - {t}, msgRoom := Queues().msgRoom)
    {
      hide Ring.Contents, Ring.Valid, PQueue.Contents, PQueue.Valid, Boxes;
      ghost var was := Msgs();
      DropBox(t);
      assert Msgs() == was - {t};
    }

    // ---------- scheduling ----------

    method SetTcb(t: nat, tcb: Tcb)
      requires Valid() && t in tcbs
      modifies this`tcbs
      ensures Valid() && Now() == WithTcb(old(Now()), t, tcb) && Queues() == old(Queues())
    {
      hide Objects, Queues;
      tcbs := tcbs[t := tcb];
    }

    /** Take a thread out of the queue it is in. */
    method Unqueue(t: nat)
      requires Valid() && t in tcbs
      modifies repr
      ensures Valid() && repr == old(repr) && Queues() == old(Queues()).(ready := Queues().ready)
      ensures Now() == old(Now()).(ready := if tcbs[t].queued then Without(old(Now()).ready, Is(t)) else old(Now()).ready)
    {
      hide Without, Objects, Queues;
      if tcbs[t].queued {
        LeaveReady(t);
      }
    }

    /** Take a thread out of the queue it is in, and append it to the ready queue if `on`. */
    method TcbEnqueue(t: nat, on: bool)
      requires Valid() && t in tcbs
      modifies this`tcbs, this`repr, repr
      ensures Valid() && fresh(repr - old(repr)) && Now() == Enqueue(old(Now()), t, on)
      ensures Queues() == old(Queues()).(ready := Queues().ready)
      ensures ReadyBut(old(Now()), t) ==> ReadyBut(Now(), t) && (t in Now().ready <==> on)
    {
      hide Without, Objects, Queues, Enqueue, ReadyBut;
      ghost var k := Now();
      Unqueue(t);
      EnqueueIs(k, t, on, Queues().ready);
      EnqueueMeans(k, t, on);
      if on {
        JoinReady(t, true);
      }
      SetTcb(t, tcbs[t].(queued := on));
    }

    /** Run the first ready thread, which goes to the end of the queue, or the idle thread. */
    method PickNextTcb()
      requires Valid()
      modifies this`curr, this`repr, repr
      ensures Valid() && fresh(repr - old(repr)) && Now() == PickNext(old(Now()))
      ensures Turns(old(Now()).ready, Now())
      ensures Asleep(old(Now())) ==> Ok(Now())
    {
      hide Objects, Queues, Ok, Asleep, Turns;
      PickTurns(Now());
      ghost var k := Now();
      var ok, t := RotateReady();
      curr := if ok then t else idle;
      PickMeans(k);
    }

    method WakeupThread(t: nat)
      requires Valid() && t in tcbs
      modifies this`tcbs, this`repr, repr
      ensures Valid() && fresh(repr - old(repr)) && Now() == Wakeup(old(Now()), t)
      ensures Queues() == old(Queues()).(ready := Queues().ready)
      ensures Ok(old(Now())) && old(tcbs)[t].run != Kernel ==> Ok(Now()) && t in Now().ready
      ensures ReadyOk(old(Now())) ==> Wakes(old(Now()), Now(), t)
    {
      hide Objects, Queues, Ok, Enqueue, ReadyBut, Wakes, ReadyOk;
      ghost var k := Now();
      if ReadyOk(k) {
        WakeupIs(k, t);
      }
      TcbEnqueue(t, true);
      tcbs := tcbs[t := tcbs[t].(run := Ready, wait := NotWaiting)];
      WakeupMeans(k, t);
    }

    /** Put an event in its place in the queue; false, and nothing changed, when there is neither room
        nor memory. */
    method AddTimedEvent(time: real, func: Func, memory: bool) returns (ok: bool)
      requires Valid()
      modifies this`stamp, this`repr, repr
      ensures Valid() && fresh(repr - old(repr))
      ensures ok <==> memory || old(Queues()).eventRoom
      ensures Now() == if ok then AddEvent(old(Now()), time, func) else old(Now())
      ensures Queues().msgRoom == old(Queues()).msgRoom
      ensures InOrder(old(Now())) ==> InOrder(Now())
      ensures InOrder(old(Now())) && ok ==> KernelEffects.Queued(old(Now()), Now(), Event(time, old(stamp), func))
    {
      hide Objects, Queues, Insert, Lined, KernelEffects.Queued;
      ghost var k := Now();
      if InOrder(k) {
        InsertQueued(k, time, func);
      }
      ok := PushEvent(Event(time, stamp, func), memory);
      if ok {
        stamp := stamp + 1;
        if InOrder(k) {
          InsertOrder(k.events, Event(time, k.stamp, func));
        }
      }
    }

    /** Put a thread to sleep.  Whether its wake-up event could be queued is not looked at. */
    method PutThreadToSleep(t: nat, ms: nat, bits: nat, memory: bool)
      requires Valid() && t in tcbs
      modifies this`tcbs, this`stamp, this`repr, repr
      ensures Valid() && fresh(repr - old(repr))
      ensures Now() == PutToSleep(old(Now()), t, ms, bits, memory || old(Queues()).eventRoom)
    {
      hide Objects, Queues, Enqueue, ReadyBut, Insert, Lined;
      tcbs := tcbs[t := tcbs[t].(run := Blocked, wait := Sleeping, mtx := bits)];
      TcbEnqueue(t, false);
      var ok := AddTimedEvent(Later(now, ms), WakeThread(t), memory);
    }

    method PutThreadToWait(t: nat, h: nat)
      requires Valid() && t in tcbs
      modifies this`tcbs, this`repr, repr
      ensures Valid() && fresh(repr - old(repr)) && Now() == PutToWait(old(Now()), t, h)
      ensures ReadyOk(old(Now())) ==> ReadyOk(Now()) && t !in Now().ready && WaitsFor(Now(), t, h)
    {
      hide Objects, Queues, Enqueue, ReadyBut, ReadyOk;
      ghost var k := Now();
      tcbs := tcbs[t := tcbs[t].(run := Blocked, wait := WaitingForMutex, mtx := h)];
      TcbEnqueue(t, false);
      WaitMeans(k, t, h);
    }

    /** Walk the list of threads from the idle one on and wake the first that seems to wait. */
    method WakeOneWaitingThread(h: nat)
      requires Valid()
      modifies this`tcbs, this`repr, repr
      ensures Valid() && fresh(repr - old(repr)) && Now() == WakeOne(old(Now()), h)
      ensures ReadyOk(old(Now())) ==> WakesFirst(old(Now()), Now(), h)
    {
      hide Objects, Queues, Wakeup, Ok, WakesFirst, ReadyOk;
      if ReadyOk(Now()) {
        WakeOneIs(Now(), h);
      }
      var i := 0;
      while i < |order|
        invariant i <= |order| && Valid() && Now() == old(Now()) && repr == old(repr)
        invariant FirstWaiting(old(Now()), 0, h) == FirstWaiting(old(Now()), i, h)
      {
        var t := order[i];
        if t in tcbs && tcbs[t].run == Blocked && tcbs[t].mtx == h {
          WakeupThread(t);
          return;
        }
        i := i + 1;
      }
    }

    // ---------- messages and timers ----------

    /** Queue a message for a thread, and wake the thread if it waits for one; false, and the message is
        dropped, when there is neither room nor memory. */
    method PostThreadMsg(t: nat, m: Msg, memory: bool) returns (ok: bool)
      requires Valid() && t in tcbs
      modifies this`tcbs, this`mailRepr, this`repr, repr
      ensures Valid() && fresh(repr - old(repr))
      ensures ok <==> memory || t in old(Queues()).msgRoom
      ensures Now() == Post(old(Now()), t, m, ok)
      ensures ReadyOk(old(Now())) ==> Posted(old(Now()), Now(), t, m, ok)
    {
      hide Objects, Queues, Wakeup, Ok, Posted, ReadyOk;
      if ReadyOk(Now()) {
        PostIs(Now(), t, m, true);
        PostIs(Now(), t, m, false);
      }
      ok := PushMail(t, m, memory);
      if ok && tcbs[t].run == Blocked && tcbs[t].wait == WaitingForMsg {
        WakeupThread(t);
      }
    }

    method AddThreadTimer(t: nat, ms: nat, repeat: bool, cookie: nat, memory: bool) returns (ok: bool)
      requires Valid() && t in tcbs && tcbs[t].pcb in pcbs
      modifies this`stamp, this`pcbs, this`repr, repr
      ensures Valid() && fresh(repr - old(repr))
      ensures ok <==> (memory || old(Queues()).eventRoom) && old(pcbs)[tcbs[t].pcb].timers < TIMER_MAX_TIMERS
      ensures Now() == AddTimer(old(Now()), t, ms, repeat, cookie, memory || old(Queues()).eventRoom)
    {
      hide Objects, Queues, Insert, Lined;
      var p := tcbs[t].pcb;
      var m := ms % TIMER_INTERVALS;
      ok := pcbs[p].timers < TIMER_MAX_TIMERS;
      if ok {
        ok := AddTimedEvent(Later(now, m), ThreadTimer(t, m, repeat, cookie), memory);
        if ok {
          pcbs := pcbs[p := pcbs[p].(timers := pcbs[p].timers + 1)];
        }
      }
    }

    method SetTimers(p: nat, n: int)
      requires Valid() && p in pcbs
      modifies this`pcbs
      ensures Valid() && Now() == WithTimers(old(Now()), p, n) && Queues() == old(Queues())
    {
      hide Objects, Queues;
      pcbs := pcbs[p := pcbs[p].(timers := n)];
    }

    /** A due timer is taken off its process's account, and put back on if it repeats and could be queued
        again. */
    method RequeueTimer(f: Func, memory: bool)
      requires Valid() && f.ThreadTimer? && f.tcb in tcbs && tcbs[f.tcb].pcb in pcbs
      modifies this`pcbs, this`stamp, this`repr, repr
      ensures Valid() && fresh(repr - old(repr)) && Queues().msgRoom == old(Queues()).msgRoom
      ensures Now() == TimerAgain(old(Now()), f, memory || old(Queues()).eventRoom)
    {
      hide Valid, Now, Objects, Queues, Insert, Lined, AddEvent;
      Fields();
      var p := tcbs[f.tcb].pcb;
      SetTimers(p, pcbs[p].timers - 1);
      Fields();
      if f.repeat {
        var ok := AddTimedEvent(Later(now, f.ms), f, memory);
        Fields();
        if ok {
          SetTimers(p, pcbs[p].timers + 1);
        }
      }
    }

    /** A due timer, whose message may find no room. */
    method ThreadTimerDue(f: Func, memory: Grant)
      requires Valid() && f.ThreadTimer? && f.tcb in tcbs && tcbs[f.tcb].pcb in pcbs
      modifies this`tcbs, this`pcbs, this`stamp, this`mailRepr, this`repr, repr
      ensures Valid() && fresh(repr - old(repr)) && Now() == TimerDue(old(Now()), f, old(Granted(f, memory)))
      ensures var p := old(tcbs)[f.tcb].pcb;
              p in pcbs && pcbs[p].timers - old(pcbs)[p].timers == |Now().events| - |old(Now()).events| - 1
    {
      hide Objects, Queues, TimerAgain, Post;
      ghost var k := Now();
      RequeueTimer(f, memory.again);
      AgainThere(k, f, memory.again || old(Queues()).eventRoom);
      var posted := PostThreadMsg(f.tcb, TimerMsg(f.cookie), memory.post);
      TimerCharge(k, f, memory.again || old(Queues()).eventRoom, posted);
    }

    /** What a due event gets when the memory is as `m` says. */
    ghost function Granted(f: Func, m: Grant): Grant
      requires Valid()
      reads this, repr
    {
      Grant(m.again || Queues().eventRoom, m.post || (f.ThreadTimer? && f.tcb in Queues().msgRoom))
    }

    method RunTimedEvent(e: Event, memory: Grant)
      requires Valid() && HasThread(Now(), e.func)
      modifies this`tcbs, this`pcbs, this`stamp, this`mailRepr, this`repr, repr
      ensures Valid() && fresh(repr - old(repr)) && Now() == RunEvent(old(Now()), e, old(Granted(e.func, memory)))
      ensures ReadyOk(old(Now())) && InOrder(old(Now())) ==> Happens(old(Now()), Now(), e.func, old(Granted(e.func, memory)))
    {
      hide Objects, Queues, AddEvent, TimerDue, Wakeup, Ok, Insert, Lined, Happens, ReadyOk;
      if ReadyOk(Now()) && InOrder(Now()) {
        RunEventIs(Now(), e.func, e, Granted(e.func, memory));
      }
      match e.func {
        case WakeThread(t) => WakeupThread(t);
        case ThreadTimer(t, ms, repeat, cookie) => ThreadTimerDue(e.func, memory);
        case LogStack => var ok := AddTimedEvent(now + 10.0, LogStack, memory.again);
      }
    }

    method NextDue() returns (due: bool)
      requires Valid()
      ensures due <==> HasDue(Now())
    {
      hide Ring.Contents, Ring.Valid, PQueue.Contents, PQueue.Valid, Boxes, Msgs, MsgRoom;
      var has, top := events.Peek();
      due := has && top.time <= now;
    }

    method PopTimedEvent() returns (e: Event)
      requires Valid() && HasDue(Now())
      modifies repr
      ensures Valid() && repr == old(repr) && e == Top(old(Now())) && Now() == Popped(old(Now()))
    {
      hide Ring.Contents, Ring.Valid, PQueue.Contents, PQueue.Valid, Boxes, Msgs, MsgRoom;
      var ok, evt := events.Pop();
      e := evt;
    }

    /** Run all due events.  Each is taken out before it runs, because running it may add another.
        `memory` says what the first, the second and so on find memory for, `got` what they get. */
    method CheckTimedEvents(memory: seq<Grant>) returns (ghost got: seq<Grant>)
      requires Valid() && InOrder(Now()) && NoZero(Now()) && EventsHaveThreads(Now())
      modifies this`tcbs, this`pcbs, this`stamp, this`mailRepr, this`repr, repr
      ensures Valid() && fresh(repr - old(repr)) && Now() == CheckEvents(old(Now()), got)
      ensures |got| == |DueList(old(Now()).events, old(Now()).now)| && AtLeast(got, memory)
    {
      hide Valid, Now, Queues, NoZero, EventsHaveThreads, InOrder, RunEvent, HasThread, HasDue, Popped, DueList, AtLeast, After, First,
           Rest, Looped;
      ghost var k := Now();
      var rest := memory;
      got := [];
      LoopStart(k, memory);
      var due := NextDue();
      while due
        invariant Valid() && fresh(repr - old(repr)) && (due <==> HasDue(Now())) && Now().now == k.now
        invariant InOrder(Now()) && NoZero(Now()) && EventsHaveThreads(Now())
        invariant Now() == Looped(k, got) && AtLeast(got, memory) && rest == After(memory, |got|)
        invariant |got| + |DueList(Now().events, k.now)| == |DueList(k.events, k.now)|
        decreases |DueList(Now().events, k.now)|
      {
        ghost var c := Now();
        DueThread(c);
        var evt := PopTimedEvent();
        ghost var g := Granted(evt.func, First(rest));
        RunTimedEvent(evt, First(rest));
        RunTakesOne(c, g);
        LoopedNext(k, got, g);
        GotMore(got, memory, g);
        rest := Rest(rest);
        got := got + [g];
        due := NextDue();
      }
      LoopedAll(k, got);
      NoneListed(Now());
    }

    method TaskScheduler(time: real, memory: seq<Grant>) returns (ghost got: seq<Grant>)
      requires Valid() && Ok(Now()) && NoZero(Now().(now := time))
      modifies this, repr
      ensures Valid() && fresh(repr - old(repr)) && Ok(Now()) && Does(old(Now()), Tick(time, got), Now())
      ensures Effect(old(Now()), Tick(time, got), Now())
      ensures |got| == |DueList(old(Now()).events, time)| && AtLeast(got, memory)
    {
      hide Effect, Objects, Queues, NoZero, EventsHaveThreads, InOrder, CheckEvents, Ok, DueList, AtLeast, Asleep, PickNext;
      ghost var k := Now();
      NowOk(k, time);
      now := time;
      got := CheckTimedEvents(memory);
      PickNextTcb();
      StepOk(k, Tick(time, got));
      StepMeans(k, Tick(time, got));
    }

    // ---------- handles ----------

    /** Find a free slot and fill it. */
    method HandlesCreate(owner: nat, kind: HandleType, data: nat) returns (h: nat)
      requires Valid() && |slots| > 0
      modifies this`slots
      ensures Valid() && h == SlotForNew(old(Now())) && if h != 0 then FreeHandle(old(Now()), h) else NoneLeft(old(Now()))
      ensures Now() == if h != 0 && h < |old(slots)| then old(Now()).(slots := old(slots)[h := Slot(kind, owner, data)]) else old(Now())
    {
      hide Objects, Queues;
      SlotIs(Now());
      var i := 1;
      while i < |slots|
        invariant 1 <= i <= |slots| && slots == old(slots)
        invariant FreeSlot(slots, 1) == FreeSlot(slots, i)
      {
        if slots[i].kind == NoHandle {
          slots := slots[i := Slot(kind, owner, data)];
          return i;
        }
        i := i + 1;
      }
      h := 0;
    }

    method DropTimedEvents(t: nat)
      requires Valid()
      modifies repr
      ensures Valid() && repr == old(repr) && Now() == old(Now()).(events := Without(old(Now()).events, Events(t)))
    {
      hide Without, Objects, Queues;
      DropEvents(t);
    }

    method Unlist(t: nat)
      requires Valid()
      modifies this`order
      ensures Valid() && Now() == old(Now()).(order := Without(old(Now()).order, Is(t)))
    {
      hide Without, Objects, Queues;
      order := Without(order, Is(t));
    }

    method AddTcb(t: nat, tcb: Tcb)
      requires Valid() && t !in tcbs
      modifies this`tcbs, this`queues, this`mailRepr, this`repr
      ensures Valid() && fresh(repr - old(repr))
      ensures Now() == old(Now()).(tcbs := old(tcbs)[t := tcb], msgs := old(Now()).msgs[t := []])
    {
      hide Objects, Queues;
      NewMail(t);
      tcbs := tcbs[t := tcb];
    }

    method RemoveTcb(t: nat)
      requires Valid()
      modifies this`tcbs, this`queues
      ensures Valid() && Now() == old(Now()).(tcbs := old(Now()).tcbs - {t}, msgs := old(Now()).msgs - {t})
    {
      hide Objects, Queues;
      DropMail(t);
      tcbs := tcbs - {t};
    }

    /** Destroy a thread; it is not called directly but through its handle.  Nothing refers to the thread
        any more, and the other threads are as they were. */
    method DestroyTcbImpl(t: nat)
      requires Valid() && t in tcbs
      modifies this`tcbs, this`order, this`curr, this`queues, this`repr, repr
      ensures Valid() && fresh(repr - old(repr)) && Now() == DestroyTcb(old(Now()), t)
      ensures Gone(old(Now()), Now(), t)
    {
      hide Valid, Now, Queues, Enqueue, PickNext, Without, ReadyBut, Asleep, Ok, Gone;
      ghost var k := Now();
      Fields();
      DestroyGone(k, t);
      EnqueueFields(k, t, false);
      TcbEnqueue(t, false);
      DropTimedEvents(t);
      Unlist(t);
      Fields();
      if curr == t {
        PickNextTcb();
      }
      RemoveTcb(t);
    }

    method HandlesResetSlot(i: nat)
      requires Valid() && i < |slots|
      modifies this`slots
      ensures Valid() && Now() == ResetSlot(old(Now()), i) && |slots| == |old(slots)|
      ensures Used(slots) == old(Used(slots)) - if old(slots)[i].kind != NoHandle then 1 else 0
    {
      hide Objects, Queues, Used;
      UsedReset(slots, i);
      slots := slots[i := EMPTY];
    }

    /** Destroy handle `i`: the slot is reset first, so that what is destroyed does not find it.
        `x` is the process on its way out, 0 when there is none. */
    method HandlesDestroyImpl(i: nat, ghost x: nat)
      requires Valid() && i < |slots| && slots[i].kind != NoHandle
      requires x == 0 ==> Ok(Now()) && UserCall(Now()) && curr in tcbs && slots[i].owner == tcbs[curr].pcb
      requires x != 0 ==> Dying(Now(), x, i) && slots[i].owner == x
      modifies this, repr
      ensures Valid() && fresh(repr - old(repr)) && Now() == Destroy(ResetSlot(old(Now()), i), old(slots)[i])
      ensures Used(slots) < old(Used(slots)) && (x != 0 ==> Dying(Now(), x, i + 1) && |slots| == old(|slots|))
      decreases Used(slots), 0
    {
      hide Valid, Now, Queues, Ok, Dying, DestroyTcb, DestroyProcess, Gone, Used;
      ghost var k := Now();
      Fields();
      var tmp := slots[i];
      DestroyCases(k, i, x);
      HandlesResetSlot(i);
      Fields();
      if tmp.kind == ThreadHandle {
        var p := tcbs[tmp.data].pcb;
        if pcbs[p].mainthread == tmp.data {
          DestroyPcbImpl(p, k);
        } else {
          DestroyTcbImpl(tmp.data);
          SlotsAfterDestroy(ResetSlot(k, i), tmp.data);
        }
      }
      Fields();
    }

    /** Destroy a process: its main thread, whose handle is gone already, then all its handles. */
    method DestroyPcbImpl(p: nat, ghost k: K)
      requires Valid() && Ok(k) && p in k.pcbs && k.pcbs[p].mainthread in k.tcbs && k.pcbs[p].mainthread != k.idle
      requires k.tcbs[k.pcbs[p].mainthread].handle < |k.slots| && Now() == ResetSlot(k, k.tcbs[k.pcbs[p].mainthread].handle)
      modifies this, repr
      ensures Valid() && fresh(repr - old(repr))
      ensures p in old(pcbs) && Now() == DestroyProcess(old(Now()), p) && Used(slots) <= old(Used(slots))
      decreases Used(slots), 2
    {
      hide Valid, Now, Queues, Ok, Dying, DestroyTcb, DestroyHandles, Gone, ResetSlot, Used;
      ghost var z := Now();
      Fields();
      MainGone(k, p);
      SlotsAfterDestroy(z, k.pcbs[p].mainthread);
      DestroyTcbImpl(pcbs[p].mainthread);
      Fields();
      DestroyPrcHandles(p);
      RemovePcb(p);
    }

    method RemovePcb(p: nat)
      requires Valid()
      modifies this`pcbs
      ensures Valid() && Now() == old(Now()).(pcbs := old(Now()).pcbs - {p})
    {
      hide Objects, Queues;
      pcbs := pcbs - {p};
    }

    /** Destroy all handles of process `p`. */
    method DestroyPrcHandles(p: nat)
      requires Valid() && Dying(Now(), p, 1)
      modifies this, repr
      ensures Valid() && fresh(repr - old(repr)) && Now() == DestroyHandles(old(Now()), p, 1) && Used(slots) <= old(Used(slots))
      decreases Used(slots), 1
    {
      hide Valid, Now, Queues, Dying, DestroyTcb, Destroy, ResetSlot, Used;
      ghost var k := Now();
      Fields();
      DyingSlots(k, p, 1);
      var i := 1;
      while i < |slots|
        invariant Valid() && fresh(repr - old(repr))
        invariant 1 <= i <= |slots| == |k.slots| && Dying(Now(), p, i) && Used(slots) <= old(Used(slots))
        invariant DestroyHandles(k, p, 1) == DestroyHandles(Now(), p, i)
        decreases |slots| - i
      {
        ghost var c := Now();
        Fields();
        DyingStep(c, p, i);
        if slots[i].owner == p {
          DyingSlot(c, p, i);
          HandlesDestroyImpl(i, p);
        }
        i := i + 1;
      }
      Fields();
    }

    /** Close a handle of the current process: it is no handle any more, and a thread it stood for is
        gone.  False, and nothing changed, for any other number. */
    method CloseHandle(h: nat) returns (ok: bool)
      requires Valid() && Ok(Now()) && UserCall(Now())
      modifies this, repr
      ensures Valid() && fresh(repr - old(repr)) && Ok(Now()) && Does(old(Now()), KernelRuns.CloseHandle(h), Now())
      ensures Effect(old(Now()), KernelRuns.CloseHandle(h), Now())
      ensures ok <==> OwnHandle(old(Now()), h)
      ensures if ok then !OwnHandle(Now(), h) && |Now().slots| > h && Now().slots[h] == EMPTY else Now() == old(Now())
      ensures ok && old(slots)[h].kind == ThreadHandle ==> old(slots)[h].data !in tcbs
    {
      hide Ok, Effect, Valid, Now, Queues, Destroy, ResetSlot, Used;
      ghost var k := Now();
      Fields();
      StepOk(k, KernelRuns.CloseHandle(h));
      StepMeans(k, KernelRuns.CloseHandle(h));
      CurrFacts(k);
      ok := 0 < h < |slots| && slots[h].kind != NoHandle && slots[h].owner == tcbs[curr].pcb;
      if ok {
        CloseOk(k, h);
        HandlesDestroyImpl(h, 0);
        ClosedSlot(k, h);
        Fields();
      }
    }

    // ---------- system calls ----------

    /** The data of a handle of the current process, 0 if it is not one of the given kind: of a thread
        handle, just the thread of this process that has this handle. */
    method HandlesGetData(h: nat, kind: HandleType) returns (data: nat)
      requires Valid() && curr in tcbs
      ensures data == HandleData(Now(), h, kind)
      ensures data != 0 ==> OwnHandle(Now(), h) && slots[h].kind == kind
      ensures Ok(Now()) && kind == ThreadHandle ==>
                if data != 0 then data in tcbs && tcbs[data].handle == h && tcbs[data].pcb == tcbs[curr].pcb
                else forall t :: t in tcbs && tcbs[t].pcb == tcbs[curr].pcb ==> tcbs[t].handle != h
    {
      hide Ok, Objects, Queues;
      data := 0;
      if 0 < h < |slots| && slots[h].kind != NoHandle && slots[h].owner == tcbs[curr].pcb && slots[h].kind == kind {
        data := slots[h].data;
      }
      if Ok(Now()) && kind == ThreadHandle {
        ThreadTarget(Now(), h);
      }
    }

    method SysSleep(ms: nat, bits: nat, memory: bool)
      requires Valid() && Ok(Now()) && UserCall(Now())
      modifies this, repr
      ensures Valid() && fresh(repr - old(repr)) && Ok(Now())
      ensures Does(old(Now()), Sleep(ms, bits, memory || old(Queues()).eventRoom), Now())
      ensures Effect(old(Now()), Sleep(ms, bits, memory || old(Queues()).eventRoom), Now())
    {
      hide Ok, Effect, Objects, Queues, Destroy, DestroyProcess, DestroyHandles, DestroyTcb, CheckEvents, KernelState.AddTimer, WakeOne,
           Post, GetMsg, NewTcb, WithProcess, PutToSleep, PutToWait, PickNext, InOrder, EventsHaveThreads, NoZero, Asleep,
           HandleData, SlotForNew, ResetSlot, Enqueue, FirstWaiting, Mail, ReadyOk;
      StepOk(Now(), Sleep(ms, bits, memory || Queues().eventRoom));
      StepMeans(Now(), Sleep(ms, bits, memory || Queues().eventRoom));
      CurrFacts(Now());
      PutThreadToSleep(curr, ms, bits, memory);
      PickNextTcb();
    }

    method SysWaitForMutex(h: nat)
      requires Valid() && Ok(Now()) && UserCall(Now())
      modifies this, repr
      ensures Valid() && fresh(repr - old(repr)) && Ok(Now()) && Does(old(Now()), WaitForMutex(h), Now())
      ensures Effect(old(Now()), WaitForMutex(h), Now())
    {
      hide Ok, Effect, Objects, Queues, Destroy, DestroyProcess, DestroyHandles, DestroyTcb, CheckEvents, KernelState.AddTimer, WakeOne,
           Post, GetMsg, NewTcb, WithProcess, PutToSleep, PutToWait, PickNext, InOrder, EventsHaveThreads, NoZero, Asleep,
           HandleData, SlotForNew, ResetSlot, Enqueue, FirstWaiting, Mail, ReadyOk;
      StepOk(Now(), WaitForMutex(h));
      StepMeans(Now(), WaitForMutex(h));
      CurrFacts(Now());
      var data := HandlesGetData(h, MutexHandle);
      if data != 0 {
        PutThreadToWait(curr, h);
        PickNextTcb();
      }
    }

    method SysMutexUnlocked(h: nat)
      requires Valid() && Ok(Now()) && UserCall(Now())
      modifies this, repr
      ensures Valid() && fresh(repr - old(repr)) && Ok(Now()) && Does(old(Now()), MutexUnlocked(h), Now())
      ensures Effect(old(Now()), MutexUnlocked(h), Now())
    {
      hide Ok, Effect, Objects, Queues, Destroy, DestroyProcess, DestroyHandles, DestroyTcb, CheckEvents, KernelState.AddTimer, WakeOne,
           Post, GetMsg, NewTcb, WithProcess, PutToSleep, PutToWait, PickNext, InOrder, EventsHaveThreads, NoZero, Asleep,
           HandleData, SlotForNew, ResetSlot, Enqueue, FirstWaiting, Mail, ReadyOk;
      StepOk(Now(), MutexUnlocked(h));
      StepMeans(Now(), MutexUnlocked(h));
      CurrFacts(Now());
      var data := HandlesGetData(h, MutexHandle);
      if data != 0 {
        WakeOneWaitingThread(h);
      }
    }

    method TakeMsg(t: nat) returns (ok: bool, m: Msg)
      requires Valid() && t in tcbs
      modifies this`mailRepr, repr
      ensures Valid() && fresh(repr - old(repr)) && curr == old(curr) && (ok <==> Mail(old(Now()), t) != [])
      ensures ok ==> m == Mail(old(Now()), t)[0]
      ensures Now() == if ok then WithMail(old(Now()), t, Mail(old(Now()), t)[1..]) else old(Now())
    {
      hide Objects, Queues;
      ok, m := PopMail(t);
    }

    method BlockForMsg(t: nat)
      requires Valid() && t in tcbs
      modifies this`tcbs, this`repr, repr
      ensures Valid() && fresh(repr - old(repr)) && Now() == WaitForMsg(old(Now()), t)
    {
      hide Objects, Queues, Enqueue, ReadyBut;
      SetTcb(t, tcbs[t].(run := Blocked, wait := WaitingForMsg));
      TcbEnqueue(t, false);
    }

    /** Take the first message, or block for one; true if there was one. */
    method SysGetMsg(wait: bool) returns (hasMsg: bool, msg: Msg)
      requires Valid() && Ok(Now()) && UserCall(Now())
      modifies this, repr
      ensures Valid() && fresh(repr - old(repr)) && Ok(Now()) && Does(old(Now()), GetMessage(wait), Now())
      ensures Effect(old(Now()), GetMessage(wait), Now())
      ensures hasMsg <==> Mail(old(Now()), old(curr)) != []
      ensures hasMsg ==> msg == Mail(old(Now()), old(curr))[0]
    {
      hide Ok, Effect, Valid, Now, Queues, Destroy, DestroyProcess, DestroyHandles, DestroyTcb, CheckEvents, KernelState.AddTimer, WakeOne,
           Post, NewTcb, WithProcess, PutToSleep, PutToWait, PickNext, InOrder, EventsHaveThreads, NoZero, Asleep,
           HandleData, SlotForNew, ResetSlot, Enqueue, FirstWaiting, WaitForMsg, Mail;
      StepOk(Now(), GetMessage(wait));
      StepMeans(Now(), GetMessage(wait));
      CurrFacts(Now());
      Fields();
      hasMsg, msg := TakeMsg(curr);
      Fields();
      if !hasMsg && wait {
        BlockForMsg(curr);
        PickNextTcb();
      }
    }

    /** Post to a thread of the own process.  The answer is true also when the message was dropped. */
    method SysPostMsg(h: nat, m: Msg, memory: bool) returns (ok: bool)
      requires Valid() && Ok(Now()) && UserCall(Now())
      modifies this, repr
      ensures Valid() && fresh(repr - old(repr)) && Ok(Now())
      ensures Does(old(Now()), PostMessage(h, m, memory || HandleData(old(Now()), h, ThreadHandle) in old(Queues()).msgRoom), Now())
      ensures Effect(old(Now()), PostMessage(h, m, memory || HandleData(old(Now()), h, ThreadHandle) in old(Queues()).msgRoom), Now())
      ensures ok <==> exists t :: t in old(tcbs) && old(tcbs)[t].handle == h && old(tcbs)[t].pcb == old(tcbs)[old(curr)].pcb
    {
      hide Ok, Effect, Objects, Queues, Destroy, DestroyProcess, DestroyHandles, DestroyTcb, CheckEvents, KernelState.AddTimer, WakeOne,
           Post, GetMsg, NewTcb, WithProcess, PutToSleep, PutToWait, PickNext, InOrder, EventsHaveThreads, NoZero, Asleep,
           HandleData, SlotForNew, ResetSlot, Enqueue, FirstWaiting, Mail, ReadyOk;
      ghost var k := Now();
      StepOk(k, PostMessage(h, m, memory || HandleData(k, h, ThreadHandle) in Queues().msgRoom));
      StepMeans(k, PostMessage(h, m, memory || HandleData(k, h, ThreadHandle) in Queues().msgRoom));
      CurrFacts(k);
      var t := HandlesGetData(h, ThreadHandle);
      ok := t != 0;
      if ok {
        var posted := PostThreadMsg(t, m, memory);
      }
    }

    /** Set a timer: it is queued and charged, or nothing has changed. */
    method SysSetTimer(ms: nat, repeat: bool, cookie: nat, memory: bool) returns (ok: bool)
      requires Valid() && Ok(Now()) && UserCall(Now())
      modifies this, repr
      ensures Valid() && fresh(repr - old(repr)) && Ok(Now())
      ensures Does(old(Now()), SetTimer(ms, repeat, cookie, memory || old(Queues()).eventRoom), Now())
      ensures Effect(old(Now()), SetTimer(ms, repeat, cookie, memory || old(Queues()).eventRoom), Now())
      ensures Charged(old(Now()), Now(), ok)
    {
      hide Ok, Effect, Objects, Queues, Destroy, DestroyProcess, DestroyHandles, DestroyTcb, CheckEvents, KernelState.AddTimer, WakeOne,
           Post, GetMsg, NewTcb, WithProcess, PutToSleep, PutToWait, PickNext, InOrder, EventsHaveThreads, NoZero, Asleep,
           HandleData, SlotForNew, ResetSlot, Enqueue, FirstWaiting, Mail, ReadyOk;
      ghost var k := Now();
      StepOk(k, SetTimer(ms, repeat, cookie, memory || Queues().eventRoom));
      StepMeans(k, SetTimer(ms, repeat, cookie, memory || Queues().eventRoom));
      CurrFacts(k);
      TimerCharged(k, ms, repeat, cookie, memory || Queues().eventRoom);
      ok := AddThreadTimer(curr, ms, repeat, cookie, memory);
    }

    /** A new mutex handle, 0 when all slots are taken. */
    method SysCreateMutex() returns (h: nat)
      requires Valid() && Ok(Now()) && UserCall(Now())
      modifies this`slots
      ensures Valid() && Ok(Now()) && Does(old(Now()), KernelRuns.CreateMutex, Now())
      ensures Effect(old(Now()), KernelRuns.CreateMutex, Now())
      ensures if h != 0 then h < |old(slots)| && old(slots)[h].kind == NoHandle && OwnHandle(Now(), h) && slots[h].kind == MutexHandle
              else Now() == old(Now()) && forall i :: 0 < i < |slots| ==> slots[i].kind != NoHandle
    {
      hide Ok, Effect, Objects, Queues, Destroy, DestroyProcess, DestroyHandles, DestroyTcb, CheckEvents, KernelState.AddTimer, WakeOne,
           Post, GetMsg, NewTcb, WithProcess, PutToSleep, PutToWait, PickNext, InOrder, EventsHaveThreads, NoZero, Asleep,
           HandleData, SlotForNew, ResetSlot, Enqueue, FirstWaiting, Mail, ReadyOk;
      StepOk(Now(), KernelRuns.CreateMutex);
      StepMeans(Now(), KernelRuns.CreateMutex);
      CurrFacts(Now());
      SlotsThere(Now());
      FreeSlotIs(Now());
      h := HandlesCreate(tcbs[curr].pcb, MutexHandle, curr);
    }

    /** A new thread of process `p` at address `t`; 0, and nothing changed, without memory or a slot. */
    method CreateTcb(p: nat, t: nat, memory: bool) returns (h: nat)
      requires Valid() && |slots| > 0 && t !in tcbs
      modifies this`tcbs, this`order, this`slots, this`queues, this`mailRepr, this`repr, repr
      ensures Valid() && fresh(repr - old(repr))
      ensures h == (if memory then SlotForNew(old(Now())) else 0) && (h != 0 ==> h < |old(slots)|)
      ensures Now() == if h != 0 then NewTcb(old(Now()), p, t, h) else old(Now())
    {
      hide Objects, Queues, Enqueue, ReadyBut;
      h := 0;
      if memory {
        h := HandlesCreate(p, ThreadHandle, t);
        if h != 0 {
          order := order + [t];
          AddTcb(t, Tcb(p, Ready, false, NotWaiting, 0, h));
          TcbEnqueue(t, true);
        }
      }
    }

    /** A new thread of the current process with a handle of its own, or 0 and nothing changed. */
    method SysCreateThread(t: nat, memory: bool) returns (h: nat)
      requires Valid() && Ok(Now()) && UserCall(Now()) && t !in tcbs && t != 0
      modifies this, repr
      ensures Valid() && fresh(repr - old(repr)) && Ok(Now()) && Does(old(Now()), CreateThread(t, memory), Now())
      ensures Effect(old(Now()), CreateThread(t, memory), Now())
      ensures if h != 0 then IsThread(Now(), old(tcbs)[old(curr)].pcb, t, h)
              else Now() == old(Now()) && (!memory || forall i :: 0 < i < |slots| ==> slots[i].kind != NoHandle)
    {
      hide Ok, Effect, Objects, Queues, Destroy, DestroyProcess, DestroyHandles, DestroyTcb, CheckEvents, KernelState.AddTimer, WakeOne,
           Post, GetMsg, NewTcb, WithProcess, PutToSleep, PutToWait, PickNext, InOrder, EventsHaveThreads, NoZero, Asleep,
           HandleData, SlotForNew, ResetSlot, Enqueue, FirstWaiting, Mail, ReadyOk;
      ghost var k := Now();
      StepOk(k, CreateThread(t, memory));
      StepMeans(k, CreateThread(t, memory));
      CurrFacts(k);
      SlotsThere(k);
      FreeSlotIs(k);
      h := CreateTcb(tcbs[curr].pcb, t, memory);
      if h != 0 {
        NewThreadIs(k, k.tcbs[k.curr].pcb, t, h);
      }
    }

    /** A new process `p` with its main thread `t`, whose handle is the answer; 0, and nothing changed,
        without memory or a slot. */
    method CreatePcb(p: nat, t: nat, memory: bool) returns (h: nat)
      requires Valid() && Ok(Now()) && p !in pcbs && p != 0 && t !in tcbs && t != 0
      modifies this, repr
      ensures Valid() && fresh(repr - old(repr)) && Ok(Now()) && Does(old(Now()), Launch(p, t, memory), Now())
      ensures Effect(old(Now()), Launch(p, t, memory), Now())
      ensures if h != 0 then IsThread(Now(), p, t, h) && p in pcbs && pcbs[p].mainthread == t
              else Now() == old(Now()) && (!memory || forall i :: 0 < i < |slots| ==> slots[i].kind != NoHandle)
    {
      hide Ok, Effect, Objects, Queues, SlotForNew, Enqueue, NewTcb, WithProcess;
      ghost var k := Now();
      StepOk(k, Launch(p, t, memory));
      StepMeans(k, Launch(p, t, memory));
      SlotsThere(k);
      FreeSlotIs(k);
      h := CreateTcb(p, t, memory);
      if h != 0 {
        pcbs := pcbs[p := Pcb(t, 0)];
        NewTcbElsewhere(k, p, t, h);
        NewThreadIs(k, p, t, h);
      }
    }
  }

  lemma EnqueueIs(k: K, t: nat, on: bool, rest: seq<nat>)
    requires t in k.tcbs && rest == if k.tcbs[t].queued then Without(k.ready, Is(t)) else k.ready
    ensures Enqueue(k, t, on) == k.(ready := if on then rest + [t] else rest, tcbs := k.tcbs[t := k.tcbs[t].(queued := on)])
  {
  }

  lemma EnqueueMeans(k: K, t: nat, on: bool)
    requires t in k.tcbs
    ensures ReadyBut(k, t) ==> ReadyBut(Enqueue(k, t, on), t) && (t in Enqueue(k, t, on).ready <==> on)
  {
    if ReadyBut(k, t) {
      EnqueueKeeps(k, t, on);
    }
  }

  lemma PickMeans(k: K)
    ensures Asleep(k) ==> Ok(PickNext(k))
  {
    if Asleep(k) {
      PickAsleep(k);
    }
  }

  lemma WakeupMeans(k: K, t: nat)
    requires t in k.tcbs
    ensures t in Wakeup(k, t).ready && (Ok(k) && k.tcbs[t].run != Kernel ==> Ok(Wakeup(k, t)))
  {
    hide Without;
    if Ok(k) && k.tcbs[t].run != Kernel {
      WakeupOk(k, t);
    }
  }

  lemma WaitMeans(k: K, t: nat, h: nat)
    requires t in k.tcbs
    ensures ReadyOk(k) ==>
              ReadyOk(PutToWait(k, t, h)) && t !in PutToWait(k, t, h).ready && WaitsFor(PutToWait(k, t, h), t, h)
  {
    var tcb := k.tcbs[t].(run := Blocked, wait := WaitingForMutex, mtx := h);
    if ReadyOk(k) {
      BlockKeeps(k, t, tcb);
      BlockedOut(k, t, tcb);
    }
  }

  lemma BlockedOut(k: K, t: nat, tcb: Tcb)
    requires t in k.tcbs && tcb.run == Blocked && ReadyOk(Enqueue(WithTcb(k, t, tcb), t, false))
    ensures var r := Enqueue(WithTcb(k, t, tcb), t, false);
            t !in r.ready && t in r.tcbs && r.tcbs[t].run == Blocked && r.tcbs[t].mtx == tcb.mtx
  {
    hide Without;
  }

  lemma AgainThere(k: K, f: Func, queued: bool)
    requires f.ThreadTimer? && f.tcb in k.tcbs && k.tcbs[f.tcb].pcb in k.pcbs
    ensures TimerAgain(k, f, queued).tcbs == k.tcbs
  {
  }

  /** A due timer leaves its process charged for as many timers more or less as the queue has gained or
      lost. */
  lemma TimerCharge(k: K, f: Func, again: bool, posted: bool)
    requires f.ThreadTimer? && f.tcb in k.tcbs && k.tcbs[f.tcb].pcb in k.pcbs
    ensures var r, p := TimerDue(k, f, Grant(again, posted)), k.tcbs[f.tcb].pcb;
            p in r.pcbs && r.pcbs[p].timers - k.pcbs[p].timers == |r.events| - |k.events| - 1
  {
    hide Without;
  }

  /** With memory nothing is refused. */
  ghost predicate AtLeast(got: seq<Grant>, memory: seq<Grant>) {
    forall i :: 0 <= i < |got| ==> (GrantAt(memory, i).again ==> got[i].again) && (GrantAt(memory, i).post ==> got[i].post)
  }

  function After(gs: seq<Grant>, n: nat): seq<Grant> {
    if n <= |gs| then gs[n..] else []
  }

  lemma LoopStart(k: K, memory: seq<Grant>)
    ensures Looped(k, []) == k && AtLeast([], memory) && After(memory, 0) == memory
  {
  }

  lemma GotMore(got: seq<Grant>, memory: seq<Grant>, g: Grant)
    requires AtLeast(got, memory)
    requires First(After(memory, |got|)).again ==> g.again
    requires First(After(memory, |got|)).post ==> g.post
    ensures AtLeast(got + [g], memory) && Rest(After(memory, |got|)) == After(memory, |got| + 1)
  {
  }

  lemma DueThread(k: K)
    requires InOrder(k) && HasDue(k) && EventsHaveThreads(k)
    ensures k.events != [] && HasThread(Popped(k), Top(k).func)
  {
    PoppedFacts(k);
  }

  lemma NewTcbElsewhere(k: K, p: nat, t: nat, h: nat)
    requires h < |k.slots|
    ensures var r := NewTcb(k, p, t, h);
            r.pcbs == k.pcbs && NewTcb(WithProcess(k, p, t), p, t, h) == r.(pcbs := k.pcbs[p := Pcb(t, 0)])
  {
  }

  lemma SlotsThere(k: K)
    requires Ok(k)
    ensures |k.slots| > 0
  {
  }

  /** A thread handle of one's own process leads to just the thread of this process that has it. */
  lemma ThreadTarget(k: K, h: nat)
    requires Ok(k) && k.curr in k.tcbs
    ensures var t, p := HandleData(k, h, ThreadHandle), k.tcbs[k.curr].pcb;
            if t != 0 then t in k.tcbs && k.tcbs[t].handle == h && k.tcbs[t].pcb == p
            else forall u :: u in k.tcbs && k.tcbs[u].pcb == p ==> k.tcbs[u].handle != h
  {
    var t, p := HandleData(k, h, ThreadHandle), k.tcbs[k.curr].pcb;
    if t != 0 {
      assert SlotOk(k, h, k.slots[h]);
    } else {
      forall u | u in k.tcbs && k.tcbs[u].pcb == p
        ensures k.tcbs[u].handle != h
      {
        assert HandleOf(k, u) && ThreadOk(k, u);
      }
    }
  }

  lemma SlotsAfterDestroy(k: K, t: nat)
    requires t in k.tcbs
    ensures DestroyTcb(k, t).slots == k.slots && DestroyTcb(k, t).pcbs == k.pcbs
  {
    DestroyFields(k, t);
  }

  /** What is destroyed with a handle: a thread, with the main thread its process. */
  lemma DestroyCases(k: K, i: nat, x: nat)
    requires i < |k.slots| && k.slots[i].kind != NoHandle
    requires x == 0 ==> Ok(k) && UserCall(k) && k.curr in k.tcbs && k.slots[i].owner == k.tcbs[k.curr].pcb
    requires x != 0 ==> Dying(k, x, i) && k.slots[i].owner == x
    ensures k.slots[i].kind == ThreadHandle ==>
              && k.slots[i].data in k.tcbs && k.tcbs[k.slots[i].data].pcb in k.pcbs
              && k.tcbs[k.slots[i].data].handle == i && k.slots[i].data != k.idle
              && (x != 0 ==> k.pcbs[k.tcbs[k.slots[i].data].pcb].mainthread != k.slots[i].data)
    ensures x != 0 ==> Dying(Destroy(ResetSlot(k, i), k.slots[i]), x, i + 1)
    ensures x != 0 ==> |Destroy(ResetSlot(k, i), k.slots[i]).slots| == |k.slots|
  {
    if x == 0 {
      if k.slots[i].kind == ThreadHandle {
        HandleFacts(k, i);
        UserProcess(k, k.slots[i].data);
      }
    } else {
      DyingStep(k, x, i);
      SlotFacts(k, i, x);
    }
  }

  lemma DyingSlot(k: K, p: nat, i: nat)
    requires Dying(k, p, i) && i < |k.slots| && k.slots[i].owner == p
    ensures k.slots[i].kind != NoHandle && p != 0
    ensures var z, s := ResetSlot(k, i), k.slots[i];
            Destroy(z, s) == if s.kind == ThreadHandle && s.data in z.tcbs then DestroyTcb(z, s.data) else z
  {
    assert SlotOk(k, i, k.slots[i]);
    SlotFacts(k, i, p);
  }

  /** Nothing refers to thread `t` any more, and the other threads are as they were. */
  ghost predicate Gone(k: K, r: K, t: nat) {
    && t !in r.tcbs && t !in r.msgs && t !in r.order && (ReadyBut(k, t) ==> t !in r.ready)
    && (forall i :: 0 <= i < |r.events| ==> !Events(t)(r.events[i]))
    && (forall u :: u in k.tcbs && u != t ==> u in r.tcbs && r.tcbs[u] == k.tcbs[u] && Mail(r, u) == Mail(k, u))
  }

  lemma DestroyGone(k: K, t: nat)
    requires t in k.tcbs
    ensures Gone(k, DestroyTcb(k, t), t)
  {
    hide DestroyTcb, Without, ReadyBut;
    var r := DestroyTcb(k, t);
    DestroyFields(k, t);
    WithoutIn(k.order, Is(t), t);
    forall i | 0 <= i < |r.events|
      ensures !Events(t)(r.events[i])
    {
      assert r.events[i] in r.events;
      WithoutIn(k.events, Events(t), r.events[i]);
    }
    DestroyReady(k, t);
  }

  lemma DestroyReady(k: K, t: nat)
    requires t in k.tcbs
    ensures ReadyBut(k, t) ==> t !in DestroyTcb(k, t).ready
  {
    if ReadyBut(k, t) {
      EnqueueKeeps(k, t, false);
      hide Enqueue, ReadyBut;
      var q := Enqueue(k, t, false);
      assert q.ready != [] ==> forall x :: x in q.ready[1..] + [q.ready[0]] ==> x in q.ready;
    }
  }

  lemma {:induction false} HandlesEmpty(k: K, p: nat, i: nat, h: nat)
    requires h < |k.slots| && k.slots[h] == EMPTY
    ensures h < |DestroyHandles(k, p, i).slots| && DestroyHandles(k, p, i).slots[h] == EMPTY
    decreases |k.slots| - i
  {
    hide DestroyTcb;
    if i < |k.slots| {
      if k.slots[i].owner == p {
        var s, z := k.slots[i], ResetSlot(k, i);
        if s.kind == ThreadHandle && s.data in z.tcbs {
          DestroyFields(z, s.data);
          HandlesEmpty(DestroyTcb(z, s.data), p, i + 1, h);
        } else {
          HandlesEmpty(z, p, i + 1, h);
        }
      } else {
        HandlesEmpty(k, p, i + 1, h);
      }
    }
  }

  /** A closed handle is none any more. */
  lemma ClosedSlot(k: K, h: nat)
    requires h < |k.slots|
    ensures var r := Destroy(ResetSlot(k, h), k.slots[h]); h < |r.slots| && r.slots[h] == EMPTY
  {
    hide DestroyTcb, DestroyHandles;
    var z, s := ResetSlot(k, h), k.slots[h];
    if s.kind == ThreadHandle && s.data in z.tcbs {
      var p := z.tcbs[s.data].pcb;
      DestroyFields(z, s.data);
      if p in z.pcbs && z.pcbs[p].mainthread == s.data {
        HandlesEmpty(DestroyTcb(z, s.data), p, 1, h);
      }
    }
  }

  /** Whether a timer of the current thread's process has been queued and charged. */
  ghost predicate Charged(k: K, r: K, ok: bool) {
    && k.curr in k.tcbs && k.tcbs[k.curr].pcb in k.pcbs && k.tcbs[k.curr].pcb in r.pcbs
    && r.pcbs[k.tcbs[k.curr].pcb].timers == k.pcbs[k.tcbs[k.curr].pcb].timers + (if ok then 1 else 0)
    && |r.events| == |k.events| + if ok then 1 else 0
  }

  lemma TimerCharged(k: K, ms: nat, repeat: bool, cookie: nat, queued: bool)
    requires k.curr in k.tcbs && k.tcbs[k.curr].pcb in k.pcbs
    ensures Charged(k, KernelState.AddTimer(k, k.curr, ms, repeat, cookie, queued),
                    queued && k.pcbs[k.tcbs[k.curr].pcb].timers < TIMER_MAX_TIMERS)
  {
  }

  lemma FreeSlotIs(k: K)
    requires |k.slots| > 0
    ensures var h := SlotForNew(k);
            if h != 0 then h < |k.slots| && k.slots[h].kind == NoHandle
            else forall i :: 0 < i < |k.slots| ==> k.slots[i].kind != NoHandle
  {
  }

  /** Thread `t` of process `p` has handle `h` and is ready. */
  predicate IsThread(k: K, p: nat, t: nat, h: nat) {
    && t in k.tcbs && k.tcbs[t].handle == h && k.tcbs[t].pcb == p && t in k.ready
    && h < |k.slots| && k.slots[h] == Slot(ThreadHandle, p, t)
  }

  lemma NewThreadIs(k: K, p: nat, t: nat, h: nat)
    requires h < |k.slots|
    ensures IsThread(NewTcb(k, p, t, h), p, t, h) && IsThread(NewTcb(WithProcess(k, p, t), p, t, h), p, t, h)
  {
  }
}
