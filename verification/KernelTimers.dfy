/** The timed events: in which order they run, and when the kernel gets through with them. */
module KernelTimers {
  import RingQueue
  import PrioQueue
  import opened KernelState

  /** How the kernel compares two events for the priority queue. */
  function TimedEventCmp(a: Event, b: Event): int {
    if a.time < b.time then 1 else if a.time > b.time then -1 else 0
  }

  lemma CmpIsTotal()
    ensures PrioQueue.TotalPreorder(TimedEventCmp)
  {
    forall a: Event, b: Event, c: Event | TimedEventCmp(a, b) <= 0 && TimedEventCmp(b, c) <= 0
      ensures TimedEventCmp(a, c) <= 0
    {
    }
  }

  // ---------- the order of events ----------

  function Stamp(e: Event): int {
    e.stamp
  }

  /** Which of two events runs first: the earlier one, and of equals the one that was queued first. */
  predicate Before(a: Event, b: Event) {
    a.time < b.time || (a.time == b.time && a.stamp < b.stamp)
  }

  /** What runs first comes last, and no event has a stamp from `next` on. */
  ghost predicate Lined(es: seq<Event>, next: nat) {
    && (forall i :: 0 <= i < |es| ==> es[i].stamp < next)
    && (forall i, j :: 0 <= i < j < |es| ==> Before(es[j], es[i]))
  }

  ghost predicate InOrder(k: K) {
    Lined(k.events, k.stamp)
  }

  lemma {:induction false} PlaceFront(es: seq<Event>, time: real)
    ensures forall i :: 0 <= i < PlaceOf(es, time) ==> es[i].time > time
    ensures PlaceOf(es, time) < |es| ==> es[PlaceOf(es, time)].time <= time
  {
    if es != [] && es[0].time > time {
      PlaceFront(es[1..], time);
      forall i | 0 <= i < PlaceOf(es, time)
        ensures es[i].time > time
      {
        assert i > 0 ==> es[i] == es[1..][i - 1];
      }
    }
  }

  /** The place of a new event is the one the priority queue's binary search finds. */
  lemma PlaceIsPlace(es: seq<Event>, e: Event)
    requires PrioQueue.Sorted(TimedEventCmp, es)
    ensures PrioQueue.Place(TimedEventCmp, es, e, PlaceOf(es, e.time))
  {
    PlaceFront(es, e.time);
    var p := PlaceOf(es, e.time);
    forall i | p <= i < |es|
      ensures TimedEventCmp(es[i], e) >= 0
    {
      assert i > p ==> TimedEventCmp(es[p], es[i]) <= 0;
    }
  }

  /** So pushing an event on the priority queue inserts it there. */
  lemma PushInserts(es: seq<Event>, e: Event, pos: nat)
    requires PrioQueue.Sorted(TimedEventCmp, es) && PrioQueue.Place(TimedEventCmp, es, e, pos)
    ensures PrioQueue.Inserted(es, pos, e) == Insert(es, e)
  {
    PlaceIsPlace(es, e);
    PrioQueue.OnePlace(TimedEventCmp, es, e, pos, PlaceOf(es, e.time));
  }

  lemma LinedRanked(es: seq<Event>, next: nat)
    requires forall i :: 0 <= i < |es| ==> es[i].stamp < next
    ensures Lined(es, next) <==> PrioQueue.Ranked(TimedEventCmp, Stamp, es)
  {
    forall i, j | 0 <= i < j < |es|
      ensures Before(es[j], es[i]) <==>
              TimedEventCmp(es[i], es[j]) < 0 || (TimedEventCmp(es[i], es[j]) == 0 && Stamp(es[i]) > Stamp(es[j]))
    {
    }
  }

  lemma RankedSorted(es: seq<Event>, next: nat)
    requires Lined(es, next)
    ensures PrioQueue.Sorted(TimedEventCmp, es)
  {
    forall i, j | 0 <= i < j < |es|
      ensures TimedEventCmp(es[i], es[j]) <= 0
    {
      assert Before(es[j], es[i]);
    }
  }

  lemma InsertedIn(es: seq<Event>, e: Event)
    ensures forall i :: 0 <= i < |Insert(es, e)| ==> Insert(es, e)[i] == e || Insert(es, e)[i] in es
  {
  }

  /** A new event goes behind those of the same time: the priority queue keeps equals in the order in
      which they came. */
  lemma InsertOrder(es: seq<Event>, e: Event)
    requires Lined(es, e.stamp)
    ensures Lined(Insert(es, e), e.stamp + 1)
  {
    var p, r := PlaceOf(es, e.time), Insert(es, e);
    RankedSorted(es, e.stamp);
    PlaceIsPlace(es, e);
    LinedRanked(es, e.stamp);
    CmpIsTotal();
    PrioQueue.InsertedRanked(TimedEventCmp, Stamp, es, e, p);
    InsertedIn(es, e);
    forall i | 0 <= i < |r|
      ensures r[i].stamp < e.stamp + 1
    {
      if r[i] != e {
        var j :| 0 <= j < |es| && es[j] == r[i];
      }
    }
    LinedRanked(r, e.stamp + 1);
  }

  // ---------- what is due ----------

  /** The events that are due, in the order in which they run. */
  function DueList(es: seq<Event>, now: real): seq<Event> {
    if es == [] || es[|es| - 1].time > now then []
    else [es[|es| - 1]] + DueList(es[..|es| - 1], now)
  }

  lemma {:induction false} PlacePrefix(es: seq<Event>, time: real)
    requires es != [] && PlaceOf(es, time) < |es|
    ensures PlaceOf(es[..|es| - 1], time) == PlaceOf(es, time)
  {
    if es[0].time > time {
      assert |es| > 1;
      assert es[1..][..|es| - 2] == es[..|es| - 1][1..];
      PlacePrefix(es[1..], time);
    } else {
      assert |es| > 1 ==> es[..|es| - 1][0] == es[0];
    }
  }

  /** What an insertion leaves at the end of the queue: the new event, if it comes before all others,
      or what was there. */
  lemma InsertLast(es: seq<Event>, e: Event)
    ensures var r, n := Insert(es, e), |es|;
            && |r| == n + 1
            && (PlaceOf(es, e.time) == n ==> r[n] == e && (n > 0 ==> es[n - 1].time > e.time))
            && (PlaceOf(es, e.time) < n ==> r[n] == es[n - 1] && r[..n] == Insert(es[..n - 1], e))
  {
    PlaceFront(es, e.time);
    if PlaceOf(es, e.time) < |es| {
      PlacePrefix(es, e.time);
      InsertPrefix(es, e);
    }
  }

  lemma InsertPrefix(es: seq<Event>, e: Event)
    requires es != [] && PlaceOf(es, e.time) < |es| && PlaceOf(es[..|es| - 1], e.time) == PlaceOf(es, e.time)
    ensures Insert(es, e) == Insert(es[..|es| - 1], e) + [es[|es| - 1]]
    ensures |Insert(es, e)| == |es| + 1 && Insert(es, e)[..|es|] == Insert(es[..|es| - 1], e)
  {
  }

  /** An event that is not due yet comes behind all that are. */
  lemma {:induction false} InsertNotDue(es: seq<Event>, e: Event, now: real)
    requires e.time > now
    ensures DueList(Insert(es, e), now) == DueList(es, now)
    decreases |es|
  {
    hide Insert, PlaceOf;
    InsertLast(es, e);
    if PlaceOf(es, e.time) < |es| {
      InsertNotDue(es[..|es| - 1], e, now);
    }
  }

  /** Due events run in the order of their times, those of the same time in the order in which they
      were queued. */
  lemma {:induction false} DueOrder(es: seq<Event>, next: nat, now: real)
    requires Lined(es, next)
    ensures forall i, j :: 0 <= i < j < |DueList(es, now)| ==> Before(DueList(es, now)[i], DueList(es, now)[j])
    ensures forall i :: 0 <= i < |DueList(es, now)| ==> DueList(es, now)[i] in es && DueList(es, now)[i].time <= now
    decreases |es|
  {
    if es != [] && es[|es| - 1].time <= now {
      var f := es[..|es| - 1];
      DueOrder(f, next, now);
      hide Before;
      var d, r := DueList(f, now), DueList(es, now);
      forall i, j | 0 <= i < j < |r|
        ensures Before(r[i], r[j])
      {
        assert r[j] == d[j - 1] && (i > 0 ==> r[i] == d[i - 1]);
        if i == 0 {
          var k :| 0 <= k < |f| && f[k] == d[j - 1];
          assert Before(es[|es| - 1], es[k]);
        }
      }
      forall i | 0 <= i < |r|
        ensures r[i] in es && r[i].time <= now
      {
        assert i > 0 ==> r[i] == d[i - 1];
      }
    }
  }

  /** When nothing is due at the end of the queue, nothing is due at all. */
  lemma NothingDue(k: K)
    requires InOrder(k) && !HasDue(k)
    ensures forall i :: 0 <= i < |k.events| ==> k.events[i].time > k.now
  {
    forall i | 0 <= i < |k.events|
      ensures k.events[i].time > k.now
    {
      assert i < |k.events| - 1 ==> Before(k.events[|k.events| - 1], k.events[i]);
    }
  }

  // ---------- getting through ----------

  /** No due timer repeats at once. */
  ghost predicate NoZero(k: K) {
    forall i :: 0 <= i < |k.events| && k.events[i].time <= k.now ==> Moves(k.events[i].func)
  }

  predicate Moves(f: Func) {
    f.ThreadTimer? && f.repeat ==> Signed(f.ms) > 0
  }

  ghost predicate EventsHaveThreads(k: K) {
    forall i :: 0 <= i < |k.events| ==> HasThread(k, k.events[i].func)
  }

  /** What running an event adds to the queue, if anything. */
  datatype More = Nothing | One(e: Event)

  function Adds(k: K, e: Event, g: Grant): More {
    match e.func
    case WakeThread(t) => Nothing
    case ThreadTimer(t, ms, repeat, cookie) =>
      if repeat && g.again then One(Event(Later(k.now, ms), k.stamp, e.func)) else Nothing
    case LogStack => if g.again then One(Event(k.now + 10.0, k.stamp, LogStack)) else Nothing
  }

  function With(es: seq<Event>, m: More): seq<Event> {
    match m
    case Nothing => es
    case One(e) => Insert(es, e)
  }

  /** The queue has grown by `m`, and nothing else happened to it or the clock. */
  predicate Grown(k: K, m: More, r: K) {
    && r.now == k.now && r.events == With(k.events, m)
    && r.stamp == k.stamp + (if m.One? then 1 else 0) && (m.One? ==> m.e.stamp == k.stamp)
  }

  /** The same threads in the same processes. */
  ghost predicate SameThreads(k: K, r: K) {
    && r.tcbs.Keys == k.tcbs.Keys && r.pcbs.Keys == k.pcbs.Keys
    && forall t :: t in k.tcbs ==> r.tcbs[t].pcb == k.tcbs[t].pcb
  }

  lemma WakeupThreads(k: K, t: nat)
    requires t in k.tcbs
    ensures SameThreads(k, Wakeup(k, t)) && Grown(k, Nothing, Wakeup(k, t)) && Wakeup(k, t).msgs == k.msgs
  {
  }

  lemma PostThreads(k: K, t: nat, m: Msg, queued: bool)
    requires t in k.tcbs
    ensures SameThreads(k, Post(k, t, m, queued)) && Grown(k, Nothing, Post(k, t, m, queued))
  {
    if queued && AwaitsMsg(k, t) {
      WakeupThreads(WithMail(k, t, Mail(k, t) + [m]), t);
    }
  }

  lemma RunEventFacts(k: K, e: Event, g: Grant)
    requires HasThread(k, e.func)
    ensures var r := RunEvent(k, e, g); Grown(k, Adds(k, e, g), r) && SameThreads(k, r)
  {
    match e.func
    case WakeThread(t) => WakeupThreads(k, t);
    case ThreadTimer(t, ms, repeat, cookie) =>
      PostThreads(TimerAgain(k, e.func, g.again), t, TimerMsg(cookie), g.post);
    case LogStack =>
  }

  /** Adding an event keeps order and threads, and what is due if it is not due itself. */
  lemma WithKeeps(k: K, m: More, r: K)
    requires InOrder(k) && EventsHaveThreads(k) && SameThreads(k, r) && Grown(k, m, r)
    requires m.One? ==> HasThread(k, m.e.func)
    ensures InOrder(r) && EventsHaveThreads(r)
    ensures (m.One? ==> m.e.time > k.now) ==> DueList(r.events, r.now) == DueList(k.events, k.now)
    ensures NoZero(k) && (m.One? ==> m.e.time > k.now) ==> NoZero(r)
  {
    if m.One? {
      InsertOrder(k.events, m.e);
      InsertedIn(k.events, m.e);
      if m.e.time > k.now {
        InsertNotDue(k.events, m.e, k.now);
      }
    }
    hide Insert, DueList, Lined, Moves;
    forall i | 0 <= i < |r.events|
      ensures HasThread(r, r.events[i].func)
    {
      assert r.events[i] in k.events || (m.One? && r.events[i] == m.e);
    }
  }

  lemma PoppedFacts(k: K)
    requires InOrder(k) && HasDue(k) && EventsHaveThreads(k)
    ensures var p := Popped(k);
            && InOrder(p) && EventsHaveThreads(p) && HasThread(p, Top(k).func) && p.now == k.now && SameThreads(k, p)
            && DueList(k.events, k.now) == [Top(k)] + DueList(p.events, k.now)
            && (NoZero(k) ==> NoZero(p) && Moves(Top(k).func))
  {
  }

  lemma AddedLater(k: K, e: Event, g: Grant)
    requires Moves(e.func)
    ensures Adds(k, e, g).One? ==> Adds(k, e, g).e.time > k.now
    ensures Adds(k, e, g).One? ==> Adds(k, e, g).e.func == e.func
  {
  }

  /** Running the event that is due next takes it off the list of due events, and nothing else. */
  lemma RunTakesOne(k: K, g: Grant)
    requires InOrder(k) && HasDue(k) && NoZero(k) && EventsHaveThreads(k)
    ensures HasThread(Popped(k), Top(k).func)
    ensures var r := RunEvent(Popped(k), Top(k), g);
            && r.now == k.now && InOrder(r) && NoZero(r) && EventsHaveThreads(r)
            && DueList(k.events, k.now) == [Top(k)] + DueList(r.events, k.now)
  {
    hide InOrder, NoZero, EventsHaveThreads, DueList, RunEvent, Popped, HasThread, Moves, Adds;
    PoppedFacts(k);
    var p, e := Popped(k), Top(k);
    RunEventFacts(p, e, g);
    AddedLater(p, e, g);
    WithKeeps(p, Adds(p, e, g), RunEvent(p, e, g));
  }

  /** What the first due event gets memory for, and the others; nothing when the list has ended. */
  function First(gs: seq<Grant>): Grant {
    if gs == [] then Grant(false, false) else gs[0]
  }

  function Rest(gs: seq<Grant>): seq<Grant> {
    if gs == [] then [] else gs[1..]
  }

  /** Running all due events.  It ends because every one run is off the list, and what is added is
      not due yet. */
  ghost function CheckEvents(k: K, gs: seq<Grant>): K
    requires InOrder(k) && NoZero(k) && EventsHaveThreads(k)
    decreases |DueList(k.events, k.now)|
  {
    if !HasDue(k) then k
    else
      RunTakesOne(k, First(gs));
      CheckEvents(RunEvent(Popped(k), Top(k), First(gs)), Rest(gs))
  }

  /** The events that are run, in order. */
  ghost function Executed(k: K, gs: seq<Grant>): seq<Event>
    requires InOrder(k) && NoZero(k) && EventsHaveThreads(k)
    decreases |DueList(k.events, k.now)|
  {
    if !HasDue(k) then []
    else
      RunTakesOne(k, First(gs));
      [Top(k)] + Executed(RunEvent(Popped(k), Top(k), First(gs)), Rest(gs))
  }

  /** Exactly the due events run, in order, and none is due afterwards. */
  lemma {:induction false} RunsWhatIsDue(k: K, gs: seq<Grant>)
    requires InOrder(k) && NoZero(k) && EventsHaveThreads(k)
    ensures Executed(k, gs) == DueList(k.events, k.now)
    ensures var r := CheckEvents(k, gs);
            r.now == k.now && InOrder(r) && forall i :: 0 <= i < |r.events| ==> r.events[i].time > r.now
    decreases |DueList(k.events, k.now)|
  {
    hide DueList, RunEvent, InOrder, NoZero, EventsHaveThreads;
    if HasDue(k) {
      RunTakesOne(k, First(gs));
      RunsWhatIsDue(RunEvent(Popped(k), Top(k), First(gs)), Rest(gs));
    } else {
      NothingDue(k);
      NoneListed(k);
    }
  }

  lemma NoneListed(k: K)
    requires !HasDue(k)
    ensures DueList(k.events, k.now) == []
  {
  }

  // ---------- when it does not end ----------

  /** A repeating timer without an interval that is due. */
  predicate Stuck(k: K, e: Event) {
    e.time <= k.now && e.func.ThreadTimer? && e.func.repeat && Signed(e.func.ms) <= 0
  }

  ghost predicate HasStuck(k: K) {
    exists i :: 0 <= i < |k.events| && Stuck(k, k.events[i])
  }

  /** The loop over due events after `|gs|` rounds, or where it ended before. */
  function Looped(k: K, gs: seq<Grant>): K
    decreases |gs|
  {
    if gs == [] || !HasDue(k) || !HasThread(Popped(k), Top(k).func) then k
    else Looped(RunEvent(Popped(k), Top(k), gs[0]), gs[1..])
  }

  lemma {:induction false} LoopedNext(k: K, gs: seq<Grant>, g: Grant)
    requires HasDue(Looped(k, gs)) && HasThread(Popped(Looped(k, gs)), Top(Looped(k, gs)).func)
    ensures Looped(k, gs + [g]) == RunEvent(Popped(Looped(k, gs)), Top(Looped(k, gs)), g)
    decreases |gs|
  {
    hide RunEvent, HasThread, Popped;
    if gs != [] && HasDue(k) && HasThread(Popped(k), Top(k).func) {
      assert (gs + [g])[1..] == gs[1..] + [g];
      LoopedNext(RunEvent(Popped(k), Top(k), gs[0]), gs[1..], g);
    } else {
      assert Looped(k, gs) == k;
      if gs == [] {
        assert gs + [g] == [g] && [g][1..] == [];
      }
    }
  }

  /** When the loop has ended, it has run all due events. */
  lemma {:induction false} LoopedAll(k: K, gs: seq<Grant>)
    requires InOrder(k) && NoZero(k) && EventsHaveThreads(k) && !HasDue(Looped(k, gs))
    ensures CheckEvents(k, gs) == Looped(k, gs)
    decreases |gs|
  {
    hide RunEvent, InOrder, NoZero, EventsHaveThreads, DueList;
    if HasDue(k) && gs != [] {
      RunTakesOne(k, gs[0]);
      LoopedAll(RunEvent(Popped(k), Top(k), gs[0]), gs[1..]);
    }
  }

  /** With a due repeating timer that has no interval the loop never ends: as long as there is memory
      to queue it again, an event is still due after any number of rounds. */
  lemma {:induction false} NeverThrough(k: K, gs: seq<Grant>)
    requires InOrder(k) && EventsHaveThreads(k) && HasStuck(k)
    requires forall i :: 0 <= i < |gs| ==> gs[i].again
    ensures HasDue(Looped(k, gs)) && HasStuck(Looped(k, gs))
    decreases |gs|
  {
    hide RunEvent, InOrder, EventsHaveThreads, HasThread, HasStuck, Popped, HasDue;
    StuckDue(k);
    if gs != [] {
      PoppedFacts(k);
      StillStuck(k, gs[0]);
      NeverThrough(RunEvent(Popped(k), Top(k), gs[0]), gs[1..]);
    }
  }

  lemma StillStuck(k: K, g: Grant)
    requires InOrder(k) && EventsHaveThreads(k) && HasStuck(k) && HasDue(k) && HasThread(Popped(k), Top(k).func) && g.again
    ensures var r := RunEvent(Popped(k), Top(k), g); InOrder(r) && EventsHaveThreads(r) && HasStuck(r)
  {
    hide RunEvent, InOrder, EventsHaveThreads, HasThread, Adds, With, Insert, PlaceOf, Stuck, Popped, SameThreads, HasStuck,
         Moves, NoZero, DueList;
    PoppedFacts(k);
    var p, e := Popped(k), Top(k);
    RunEventFacts(p, e, g);
    AddedThread(p, e, g);
    WithKeeps(p, Adds(p, e, g), RunEvent(p, e, g));
    StuckStays(k, RunEvent(p, e, g), g);
  }

  lemma StuckDue(k: K)
    requires InOrder(k) && HasStuck(k)
    ensures HasDue(k)
  {
    var i :| 0 <= i < |k.events| && Stuck(k, k.events[i]);
    assert i < |k.events| - 1 ==> Before(k.events[|k.events| - 1], k.events[i]);
  }

  lemma AddedThread(k: K, e: Event, g: Grant)
    requires HasThread(k, e.func)
    ensures Adds(k, e, g).One? ==> HasThread(k, Adds(k, e, g).e.func)
  {
  }

  lemma StuckStays(k: K, r: K, g: Grant)
    requires HasStuck(k) && HasDue(k) && g.again && Grown(Popped(k), Adds(Popped(k), Top(k), g), r)
    ensures HasStuck(r)
  {
    var i :| 0 <= i < |k.events| && Stuck(k, k.events[i]);
    var p, m := Popped(k), Adds(Popped(k), Top(k), g);
    if i < |p.events| {
      StillIn(p.events, m, i);
      var j :| 0 <= j < |r.events| && r.events[j] == p.events[i];
      assert Stuck(r, r.events[j]);
    } else {
      var q := PlaceOf(p.events, m.e.time);
      assert r.events[q] == m.e;
      assert Stuck(r, r.events[q]);
    }
  }

  lemma StillIn(es: seq<Event>, m: More, i: nat)
    requires i < |es|
    ensures exists j :: 0 <= j < |With(es, m)| && With(es, m)[j] == es[i]
  {
    if m.One? {
      var q := PlaceOf(es, m.e.time);
      assert With(es, m)[if i < q then i else i + 1] == es[i];
    } else {
      assert With(es, m)[i] == es[i];
    }
  }

  /** Setting a timer brings the loop into this state exactly if the timer repeats and its interval,
      of which 31 bits are kept, is zero. */
  lemma ZeroTimer(k: K, t: nat, ms: nat, repeat: bool, cookie: nat, later: real)
    requires InOrder(k) && t in k.tcbs && k.tcbs[t].pcb in k.pcbs && k.pcbs[k.tcbs[t].pcb].timers < TIMER_MAX_TIMERS
    requires later >= k.now && !HasStuck(k.(now := later))
    ensures HasStuck(AddTimer(k, t, ms, repeat, cookie, true).(now := later)) <==> repeat && ms % TIMER_INTERVALS == 0
  {
    var m := ms % TIMER_INTERVALS;
    var e := Event(Later(k.now, m), k.stamp, ThreadTimer(t, m, repeat, cookie));
    var r := AddTimer(k, t, ms, repeat, cookie, true).(now := later);
    assert r.events == Insert(k.events, e);
    assert r.events[PlaceOf(k.events, e.time)] == e;
    assert Stuck(r, e) <==> repeat && m == 0;
    hide Insert, PlaceOf, AddTimer, Stuck;
    InsertedIn(k.events, e);
    forall i | 0 <= i < |r.events| && r.events[i] != e
      ensures !Stuck(r, r.events[i])
    {
      var j :| 0 <= j < |k.events| && k.events[j] == r.events[i];
      SameStuck(k.(now := later), r, k.events[j]);
    }
  }

  lemma SameStuck(k: K, r: K, e: Event)
    requires r.now == k.now
    ensures Stuck(k, e) <==> Stuck(r, e)
  {
  }
}
