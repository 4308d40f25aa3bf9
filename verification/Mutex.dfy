/** The recursive mutex of user space: any number of threads, preempted between any two memory
    operations, woken at any time. */
module Mutex {
  import opened Words

  /** What a thread does next.  Each is one memory operation or one kernel call. */
  datatype Pc =
    | Outside                 // not in lock or unlock
    | FirstTry                // lock: the first compare-and-exchange
    | ReadUp                  // lock: read the counter
    | WriteUp(v: nat)         // lock: write the counter
    | Sleep                   // lock: ask the kernel to wait
    | Asleep                  // lock: waiting
    | Retry                   // lock: compare-and-exchange after a wake-up
    | CheckOwner              // unlock: read the owner
    | ReadDown                // unlock: read the counter
    | WriteDown(v: nat)       // unlock: write the counter
    | ClearOwner              // unlock: write the owner
    | Notify                  // unlock: tell the kernel

  /** `depth` counts the locks of this thread that have not been matched by unlocks. */
  datatype Thread = Thread(pc: Pc, depth: nat)

  /** Thread `i` has the handle `i + 1`; 0 is no thread. */
  datatype State = State(owner: nat, counter: nat, ts: seq<Thread>)

  /** A call, a memory operation, a wake-up for whatever reason, a notification by `t` that wakes `u`,
      and a new thread. */
  datatype Act = Lock(t: nat) | Unlock(t: nat) | Run(t: nat) | Wake(t: nat) | Tell(t: nat, u: nat) | Spawn

  function Handle(t: nat): nat {
    t + 1
  }

  /** A thread may call lock or unlock whenever it is in neither, however deep it is nested; it runs
      on whenever it is not asleep; and it may be woken for any reason.  A notification wakes one thread
      that waits for the mutex, or, as a plain step, none of them: the kernel wakes the first thread
      that seems to wait, which may be another one. */
  predicate Enabled(s: State, a: Act) {
    match a
    case Lock(t) => t < |s.ts| && s.ts[t].pc == Outside && s.ts[t].depth < U32 - 1
    case Unlock(t) => t < |s.ts| && s.ts[t].pc == Outside
    case Run(t) => t < |s.ts| && s.ts[t].pc != Outside && s.ts[t].pc != Asleep
    case Wake(t) => t < |s.ts| && s.ts[t].pc == Asleep
    case Tell(t, u) => t < |s.ts| && s.ts[t].pc == Notify && u < |s.ts| && s.ts[u].pc == Asleep
    case Spawn => true
  }

  function At(s: State, t: nat, pc: Pc): State
    requires t < |s.ts|
  {
    s.(ts := s.ts[t := s.ts[t].(pc := pc)])
  }

  function Nested(s: State, t: nat, pc: Pc, depth: nat): State
    requires t < |s.ts|
  {
    s.(ts := s.ts[t := Thread(pc, depth)])
  }

  /** One memory operation of thread `t`. */
  function RunOne(s: State, t: nat): State
    requires Enabled(s, Run(t))
  {
    var me := Handle(t);
    match s.ts[t].pc
    case FirstTry =>
      if s.owner == 0 then At(s.(owner := me), t, ReadUp)
      else if s.owner == me then At(s, t, ReadUp)
      else At(s, t, Sleep)
    case ReadUp => At(s, t, WriteUp(s.counter))
    case WriteUp(v) => Nested(s.(counter := (v + 1) % U32), t, Outside, s.ts[t].depth + 1)
    case Sleep => At(s, t, Asleep)
    case Retry => if s.owner == 0 then At(s.(owner := me), t, ReadUp) else At(s, t, Sleep)
    case CheckOwner => if s.owner != me then At(s, t, Outside) else At(s, t, ReadDown)
    case ReadDown => At(s, t, WriteDown(s.counter))
    case WriteDown(v) =>
      var less := (v + U32 - 1) % U32;
      Nested(s.(counter := less), t, if less != 0 then Outside else ClearOwner,
             if s.ts[t].depth > 0 then s.ts[t].depth - 1 else 0)
    case ClearOwner => At(s.(owner := 0), t, Notify)
    case Notify => At(s, t, Outside)
  }

  function Step(s: State, a: Act): State
    requires Enabled(s, a)
  {
    match a
    case Lock(t) => At(s, t, FirstTry)
    case Unlock(t) => At(s, t, CheckOwner)
    case Run(t) => RunOne(s, t)
    case Wake(t) => At(s, t, Retry)
    case Tell(t, u) => At(At(s, t, Outside), u, Retry)
    case Spawn => s.(ts := s.ts + [Thread(Outside, 0)])
  }

  // ---------- what every run keeps ----------

  /** Steps only a thread that owns the mutex can be at. */
  predicate Inside(pc: Pc) {
    pc.ReadUp? || pc.WriteUp? || pc.ReadDown? || pc.WriteDown? || pc.ClearOwner?
  }

  /** A thread that is not the owner holds nothing and is at none of the owner's steps. */
  predicate Away(th: Thread) {
    th.depth == 0 && !Inside(th.pc)
  }

  /** The owner, and how its depth and the counter agree at each of its steps. */
  predicate Owns(th: Thread, counter: nat) {
    && th.depth == counter < U32
    && match th.pc
       case Outside => th.depth > 0
       case FirstTry => 0 < th.depth < U32 - 1
       case ReadUp => th.depth < U32 - 1
       case WriteUp(v) => v == th.depth < U32 - 1
       case CheckOwner => th.depth > 0
       case ReadDown => th.depth > 0
       case WriteDown(v) => v == th.depth > 0
       case ClearOwner => th.depth == 0
       case _ => false
  }

  ghost predicate Good(s: State) {
    && s.owner <= |s.ts|
    && (s.owner == 0 ==> s.counter == 0)
    && (forall t :: 0 <= t < |s.ts| ==> if s.owner == Handle(t) then Owns(s.ts[t], s.counter) else Away(s.ts[t]))
  }

  function Start(n: nat): State {
    State(0, 0, seq(n, _ => Thread(Outside, 0)))
  }

  lemma GoodInit(n: nat)
    ensures Good(Start(n))
  {
  }

  lemma ThreadIs(s: State, t: nat)
    requires Good(s) && t < |s.ts|
    ensures if s.owner == Handle(t) then Owns(s.ts[t], s.counter) else Away(s.ts[t])
  {
  }

  lemma TellGood(s: State, t: nat, u: nat)
    requires Good(s) && Enabled(s, Tell(t, u))
    ensures Good(Step(s, Tell(t, u)))
  {
    ThreadIs(s, t);
    ThreadIs(s, u);
  }

  lemma RunGood(s: State, t: nat)
    requires Good(s) && Enabled(s, Run(t))
    ensures Good(RunOne(s, t))
  {
    var r := RunOne(s, t);
    ThreadIs(s, t);
    forall u | 0 <= u < |r.ts|
      ensures if r.owner == Handle(u) then Owns(r.ts[u], r.counter) else Away(r.ts[u])
    {
      ThreadIs(s, u);
    }
  }

  lemma GoodStep(s: State, a: Act)
    requires Good(s) && Enabled(s, a)
    ensures Good(Step(s, a))
  {
    hide RunOne;
    match a
    case Lock(t) => ThreadIs(s, t);
    case Unlock(t) => ThreadIs(s, t);
    case Run(t) => RunGood(s, t);
    case Wake(t) => ThreadIs(s, t);
    case Tell(t, u) => TellGood(s, t, u);
    case Spawn =>
  }

  // ---------- runs ----------

  /** The state after a run, if every step of it is possible. */
  datatype Outcome = Reached(s: State) | Stuck

  function Play(s: State, run: seq<Act>): Outcome
    decreases |run|
  {
    if run == [] then Reached(s)
    else if Enabled(s, run[0]) then Play(Step(s, run[0]), run[1..])
    else Stuck
  }

  lemma {:induction false} GoodRun(s: State, run: seq<Act>)
    requires Good(s) && Play(s, run).Reached?
    ensures Good(Play(s, run).s)
    decreases |run|
  {
    if run != [] {
      GoodStep(s, run[0]);
      GoodRun(Step(s, run[0]), run[1..]);
    }
  }

  /** In every run, whatever the preemption and the wake-ups: at most one thread is between lock and
      unlock, the owner names it, and outside lock and unlock the counter is its depth. */
  lemma MutualExclusion(n: nat, run: seq<Act>)
    requires Play(Start(n), run).Reached?
    ensures var s := Play(Start(n), run).s;
            && (forall t, u :: 0 <= t < |s.ts| && 0 <= u < |s.ts| && s.ts[t].depth > 0 && s.ts[u].depth > 0 ==> t == u)
            && (forall t :: 0 <= t < |s.ts| && s.ts[t].depth > 0 ==> s.owner == Handle(t))
            && (forall t :: 0 <= t < |s.ts| && s.owner == Handle(t) && !Inside(s.ts[t].pc) ==> s.ts[t].depth == s.counter > 0)
            && (s.owner == 0 ==> s.counter == 0)
  {
    GoodInit(n);
    GoodRun(Start(n), run);
    var s := Play(Start(n), run).s;
    forall t | 0 <= t < |s.ts|
      ensures s.ts[t].depth > 0 ==> s.owner == Handle(t)
    {
      assert if s.owner == Handle(t) then Owns(s.ts[t], s.counter) else Away(s.ts[t]);
    }
  }

  /** While a thread owns the mutex, no step of another thread changes owner, counter or its depth. */
  lemma OwnerUndisturbed(s: State, a: Act, t: nat)
    requires Good(s) && Enabled(s, a) && t < |s.ts| && s.owner == Handle(t)
    requires a.Spawn? || a.t != t
    ensures var r := Step(s, a); r.owner == s.owner && r.counter == s.counter && r.ts[t] == s.ts[t]
  {
    if !a.Spawn? {
      assert Away(s.ts[a.t]);
    }
    assert Owns(s.ts[t], s.counter);
  }

  /** Unlocking a mutex one does not own changes nothing. */
  lemma NonOwnerUnlock(s: State, t: nat)
    requires Enabled(s, Unlock(t)) && s.owner != Handle(t)
    ensures Enabled(Step(s, Unlock(t)), Run(t))
    ensures Step(Step(s, Unlock(t)), Run(t)) == s
  {
    var r := Step(Step(s, Unlock(t)), Run(t));
    assert r.ts[t] == s.ts[t];
    assert r.ts == s.ts;
  }

  // ---------- the lock that is refined ----------

  /** A recursive lock as its user sees it. */
  datatype LockState = Free | Held(t: nat, depth: nat)

  datatype Event = Silent | Acquire(t: nat) | Release(t: nat)

  ghost function LockOf(s: State): LockState {
    if 0 < s.owner <= |s.ts| && s.ts[s.owner - 1].depth > 0 then Held(s.owner - 1, s.ts[s.owner - 1].depth) else Free
  }

  /** A lock takes effect when the counter is written, an unlock likewise. */
  function EventOf(s: State, a: Act): Event
    requires Enabled(s, a)
  {
    if a.Run? && s.ts[a.t].pc.WriteUp? then Acquire(a.t)
    else if a.Run? && s.ts[a.t].pc.WriteDown? then Release(a.t)
    else Silent
  }

  predicate Allowed(x: LockState, e: Event) {
    match e
    case Silent => true
    case Acquire(t) => x == Free || (x.Held? && x.t == t)
    case Release(t) => x.Held? && x.t == t && x.depth > 0
  }

  function Next(x: LockState, e: Event): LockState
    requires Allowed(x, e)
  {
    match e
    case Silent => x
    case Acquire(t) => if x == Free then Held(t, 1) else Held(t, x.depth + 1)
    case Release(t) => if x.depth == 1 then Free else Held(t, x.depth - 1)
  }

  /** Every memory operation either does nothing to the lock or is an acquisition or a release it
      allows: nobody acquires a lock another thread holds. */
  lemma StepRefines(s: State, a: Act)
    requires Good(s) && Enabled(s, a)
    ensures Allowed(LockOf(s), EventOf(s, a))
    ensures LockOf(Step(s, a)) == Next(LockOf(s), EventOf(s, a))
  {
    GoodStep(s, a);
    if !a.Spawn? {
      assert if s.owner == Handle(a.t) then Owns(s.ts[a.t], s.counter) else Away(s.ts[a.t]);
      if 0 < s.owner {
        assert Owns(s.ts[s.owner - 1], s.counter);
      }
    }
  }

  function Trace(s: State, run: seq<Act>): seq<Event>
    requires Play(s, run).Reached?
    decreases |run|
  {
    if run == [] then [] else [EventOf(s, run[0])] + Trace(Step(s, run[0]), run[1..])
  }

  /** Whether a lock in state `x` allows these acquisitions and releases in this order, and how it
      is left. */
  datatype Verdict = Fine(x: LockState) | Refused

  function Replay(x: LockState, es: seq<Event>): Verdict
    decreases |es|
  {
    if es == [] then Fine(x)
    else if Allowed(x, es[0]) then Replay(Next(x, es[0]), es[1..])
    else Refused
  }

  /** The acquisitions and releases of any run are those of a recursive lock. */
  lemma {:induction false} RunRefines(s: State, run: seq<Act>)
    requires Good(s) && Play(s, run).Reached?
    ensures Replay(LockOf(s), Trace(s, run)) == Fine(LockOf(Play(s, run).s))
    decreases |run|
  {
    if run != [] {
      var r := Step(s, run[0]);
      GoodStep(s, run[0]);
      StepRefines(s, run[0]);
      RunRefines(r, run[1..]);
      var es := Trace(s, run);
      assert es[0] == EventOf(s, run[0]) && es[1..] == Trace(r, run[1..]);
    }
  }

  // ---------- wake-ups ----------

  ghost predicate SomeAsleep(s: State) {
    exists t :: 0 <= t < |s.ts| && s.ts[t].pc == Asleep
  }

  /** Some thread but `me` is about to notify, or has been woken and will try again. */
  ghost predicate OtherActive(s: State, me: int) {
    exists u :: 0 <= u < |s.ts| && u != me && (s.ts[u].pc == Notify || s.ts[u].pc == Retry)
  }

  /** If a thread sleeps, the mutex is taken, so that it will be notified, or somebody is about to notify
      or to try again.  A thread in front of its first exchange is not counted on, although it would take a
      free mutex and notify when it gives it back: it need not come to run. */
  ghost predicate WillWake(s: State) {
    SomeAsleep(s) ==> s.owner != 0 || OtherActive(s, -1)
  }

  /** A thread goes to sleep although the mutex is free, or notifies without waking one that sleeps, when
      no other is about to notify or to try again. */
  ghost predicate Loses(s: State, a: Act) {
    && a.Run? && a.t < |s.ts| && s.owner == 0 && !OtherActive(s, a.t)
    && (s.ts[a.t].pc == Sleep || (s.ts[a.t].pc == Notify && SomeAsleep(s)))
  }

  /** Just these steps lose a wake-up. */
  lemma StepWakes(s: State, a: Act)
    requires Good(s) && Enabled(s, a) && WillWake(s)
    ensures WillWake(Step(s, a)) <==> !Loses(s, a)
  {
    var r := Step(s, a);
    if a.Spawn? {
      SpawnWakes(s);
    } else {
      assert if s.owner == Handle(a.t) then Owns(s.ts[a.t], s.counter) else Away(s.ts[a.t]);
      if Loses(s, a) {
        assert r.owner == 0;
        LostNow(s, a);
      } else if SomeAsleep(r) && r.owner == 0 {
        StillActive(s, a);
      }
    }
  }

  lemma SpawnWakes(s: State)
    requires WillWake(s)
    ensures WillWake(Step(s, Spawn))
  {
    var r := Step(s, Spawn);
    if SomeAsleep(r) && r.owner == 0 {
      var t :| 0 <= t < |r.ts| && r.ts[t].pc == Asleep;
      assert s.ts[t].pc == Asleep;
      var u :| 0 <= u < |s.ts| && u != -1 && (s.ts[u].pc == Notify || s.ts[u].pc == Retry);
      assert r.ts[u] == s.ts[u];
    }
  }

  lemma LostNow(s: State, a: Act)
    requires Enabled(s, a) && Loses(s, a)
    ensures !WillWake(Step(s, a))
  {
    var r := Step(s, a);
    if s.ts[a.t].pc == Sleep {
      assert r.ts[a.t].pc == Asleep;
    } else {
      var t :| 0 <= t < |s.ts| && s.ts[t].pc == Asleep;
      assert r.ts[t].pc == Asleep;
    }
    assert forall u :: 0 <= u < |r.ts| && u != a.t ==> r.ts[u] == s.ts[u];
  }

  lemma StillActive(s: State, a: Act)
    requires Good(s) && Enabled(s, a) && !a.Spawn? && WillWake(s) && !Loses(s, a)
    requires SomeAsleep(Step(s, a)) && Step(s, a).owner == 0
    ensures OtherActive(Step(s, a), -1)
  {
    var r := Step(s, a);
    assert if s.owner == Handle(a.t) then Owns(s.ts[a.t], s.counter) else Away(s.ts[a.t]);
    if a.Tell? {
      assert r.ts[a.u].pc == Retry;
    } else if r.ts[a.t].pc == Notify || r.ts[a.t].pc == Retry {
    } else {
      var t :| 0 <= t < |r.ts| && r.ts[t].pc == Asleep;
      assert t != a.t ==> s.ts[t].pc == Asleep;
      assert OtherActive(s, a.t);
      var u :| 0 <= u < |s.ts| && u != a.t && (s.ts[u].pc == Notify || s.ts[u].pc == Retry);
      assert r.ts[u] == s.ts[u];
    }
  }

  /** A wake-up is assured in every state of the run. */
  ghost predicate AllWake(s: State, run: seq<Act>)
    requires Play(s, run).Reached?
    decreases |run|
  {
    WillWake(s) && (run != [] ==> AllWake(Step(s, run[0]), run[1..]))
  }

  ghost predicate NeverLoses(s: State, run: seq<Act>)
    requires Play(s, run).Reached?
    decreases |run|
  {
    run != [] ==> !Loses(s, run[0]) && NeverLoses(Step(s, run[0]), run[1..])
  }

  /** In a run no wake-up is ever lost if and only if no step of it is one of these. */
  lemma {:induction false} RunWakes(s: State, run: seq<Act>)
    requires Good(s) && WillWake(s) && Play(s, run).Reached?
    ensures AllWake(s, run) <==> NeverLoses(s, run)
    decreases |run|
  {
    hide Good, Step, Enabled, WillWake, Loses;
    if run != [] {
      GoodStep(s, run[0]);
      StepWakes(s, run[0]);
      if WillWake(Step(s, run[0])) {
        RunWakes(Step(s, run[0]), run[1..]);
      } else {
        assert run[1..] == [] || !AllWake(Step(s, run[0]), run[1..]);
      }
    }
  }

  lemma StartWakes(n: nat)
    ensures Good(Start(n)) && WillWake(Start(n))
  {
    GoodInit(n);
  }

  // ---------- what does not hold ----------

  lemma {:induction false} PlayConcat(s: State, a: seq<Act>, b: seq<Act>)
    requires Play(s, a).Reached?
    ensures Play(s, a + b) == Play(Play(s, a).s, b)
    decreases |a|
  {
    if a == [] {
      assert a + b == b;
    } else {
      assert (a + b)[0] == a[0] && (a + b)[1..] == a[1..] + b;
      PlayConcat(Step(s, a[0]), a[1..], b);
    }
  }

  /** Two threads. */
  function Two(owner: nat, counter: nat, a: Thread, b: Thread): State {
    State(owner, counter, [a, b])
  }

  /** The first thread locks. */
  lemma FirstLocks()
    ensures Play(Two(0, 0, Thread(Outside, 0), Thread(Outside, 0)), [Lock(0), Run(0), Run(0), Run(0)])
            == Reached(Two(1, 1, Thread(Outside, 1), Thread(Outside, 0)))
  {
    var s := Two(0, 0, Thread(Outside, 0), Thread(Outside, 0));
    var b := Thread(Outside, 0);
    assert Step(s, Lock(0)) == Two(0, 0, Thread(FirstTry, 0), b);
    assert Step(Two(0, 0, Thread(FirstTry, 0), b), Run(0)) == Two(1, 0, Thread(ReadUp, 0), b);
    assert Step(Two(1, 0, Thread(ReadUp, 0), b), Run(0)) == Two(1, 0, Thread(WriteUp(0), 0), b);
    assert Step(Two(1, 0, Thread(WriteUp(0), 0), b), Run(0)) == Two(1, 1, Thread(Outside, 1), b);
    Four(s, Lock(0), Run(0), Run(0), Run(0));
  }

  /** The second one fails to, but does not wait yet; the first begins to unlock. */
  lemma SecondFails()
    ensures Play(Two(1, 1, Thread(Outside, 1), Thread(Outside, 0)), [Lock(1), Run(1), Unlock(0), Run(0)])
            == Reached(Two(1, 1, Thread(ReadDown, 1), Thread(Sleep, 0)))
  {
    var s := Two(1, 1, Thread(Outside, 1), Thread(Outside, 0));
    var a := Thread(Outside, 1);
    assert Step(s, Lock(1)) == Two(1, 1, a, Thread(FirstTry, 0));
    assert Step(Two(1, 1, a, Thread(FirstTry, 0)), Run(1)) == Two(1, 1, a, Thread(Sleep, 0));
    assert Step(Two(1, 1, a, Thread(Sleep, 0)), Unlock(0)) == Two(1, 1, Thread(CheckOwner, 1), Thread(Sleep, 0));
    assert Step(Two(1, 1, Thread(CheckOwner, 1), Thread(Sleep, 0)), Run(0)) == Two(1, 1, Thread(ReadDown, 1), Thread(Sleep, 0));
    Four(s, Lock(1), Run(1), Unlock(0), Run(0));
  }

  /** The first one unlocks and notifies nobody. */
  lemma FirstUnlocks()
    ensures Play(Two(1, 1, Thread(ReadDown, 1), Thread(Sleep, 0)), [Run(0), Run(0), Run(0), Run(0)])
            == Reached(Two(0, 0, Thread(Outside, 0), Thread(Sleep, 0)))
  {
    var s := Two(1, 1, Thread(ReadDown, 1), Thread(Sleep, 0));
    var b := Thread(Sleep, 0);
    assert Step(s, Run(0)) == Two(1, 1, Thread(WriteDown(1), 1), b);
    assert Step(Two(1, 1, Thread(WriteDown(1), 1), b), Run(0)) == Two(1, 0, Thread(ClearOwner, 0), b);
    assert Step(Two(1, 0, Thread(ClearOwner, 0), b), Run(0)) == Two(0, 0, Thread(Notify, 0), b);
    assert Step(Two(0, 0, Thread(Notify, 0), b), Run(0)) == Two(0, 0, Thread(Outside, 0), b);
    Four(s, Run(0), Run(0), Run(0), Run(0));
  }

  /** A wake-up can be lost: the failed compare-and-exchange and the call that waits are two steps,
      and the owner may unlock and notify between them.  Then a thread sleeps although the mutex is
      free and nobody is about to notify it. */
  lemma WakeUpCanBeLost() returns (run: seq<Act>)
    ensures Play(Start(2), run) == Reached(Two(0, 0, Thread(Outside, 0), Thread(Asleep, 0)))
    ensures !WillWake(Two(0, 0, Thread(Outside, 0), Thread(Asleep, 0)))
  {
    hide Play, Step;
    var s := Start(2);
    assert s == Two(0, 0, Thread(Outside, 0), Thread(Outside, 0));
    var a, b, c := [Lock(0), Run(0), Run(0), Run(0)], [Lock(1), Run(1), Unlock(0), Run(0)], [Run(0), Run(0), Run(0), Run(0)];
    FirstLocks();
    SecondFails();
    FirstUnlocks();
    PlayConcat(s, a, b);
    PlayConcat(s, a + b, c);
    SecondSleeps();
    LostThere();
    PlayConcat(s, a + b + c, [Run(1)]);
    run := a + b + c + [Run(1)];
  }

  lemma LostThere()
    ensures !WillWake(Two(0, 0, Thread(Outside, 0), Thread(Asleep, 0)))
  {
    var s := Two(0, 0, Thread(Outside, 0), Thread(Asleep, 0));
    assert s.ts[1].pc == Asleep;
  }

  /** The second one goes to sleep after all. */
  lemma SecondSleeps()
    ensures Play(Two(0, 0, Thread(Outside, 0), Thread(Sleep, 0)), [Run(1)])
            == Reached(Two(0, 0, Thread(Outside, 0), Thread(Asleep, 0)))
  {
    var s := Two(0, 0, Thread(Outside, 0), Thread(Sleep, 0));
    assert Step(s, Run(1)) == Two(0, 0, Thread(Outside, 0), Thread(Asleep, 0));
    assert [Run(1)][1..] == [];
  }

  lemma Four(s: State, a: Act, b: Act, c: Act, d: Act)
    requires Enabled(s, a) && Enabled(Step(s, a), b) && Enabled(Step(Step(s, a), b), c)
    requires Enabled(Step(Step(Step(s, a), b), c), d)
    ensures Play(s, [a, b, c, d]) == Reached(Step(Step(Step(Step(s, a), b), c), d))
  {
    hide Enabled, Step;
    var r := [a, b, c, d];
    assert r[1..] == [b, c, d] && r[1..][1..] == [c, d] && r[1..][1..][1..] == [d] && r[1..][1..][1..][1..] == [];
    var s1 := Step(s, a);
    var s2 := Step(s1, b);
    var s3 := Step(s2, c);
    assert Play(s3, [d]) == Play(Step(s3, d), []);
    assert Play(s2, [c, d]) == Play(s3, [d]);
    assert Play(s1, [b, c, d]) == Play(s2, [c, d]);
  }
}
