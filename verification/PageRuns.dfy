/** Runs of processes that come, go and let their allocators move their breaks: the allocators' breaks
    and the kernel's agree, and every byte a heap may use has a page of its own. */
module PageRuns {
  import opened PageState
  import opened PageBreaks
  import opened PageTables
  import opened PageEntries
  import HeapBlocks
  import HeapSteps

  /** The pages and tables, and for every process the break its allocator believes in. */
  datatype Sys = Sys(m: M, brks: map<nat, nat>)

  /** A new process; the end of one; its allocator asking for room for `size` bytes when its blocks are
      `bs`, by raising the break to `to`; its allocator giving room back. */
  datatype Step = NewTable(t: nat, kernel: seq<nat>, l: Layout) | DropTable(t: nat)
                | Raise(t: nat, start: nat, bs: seq<HeapBlocks.Block>, size: nat, to: nat) | Lower(t: nat, to: nat)

  /** Every table matches its pages, the breaks agree, and every heap byte below its break is mapped. */
  ghost predicate Safe(s: Sys) {
    Good(s.m) && s.brks.Keys == s.m.tables.Keys && forall t :: t in s.m.tables ==> HeapSafe(s, t)
  }

  ghost predicate HeapSafe(s: Sys, t: nat) {
    t in s.m.tables && t in s.brks && s.brks[t] == s.m.tables[t].brk && Mapped(s.m.tables[t])
  }

  /** What the kernel's answer to a request makes of the system; the allocator takes the new break over
      only if it was granted. */
  ghost function Moved(s: Sys, t: nat, to: nat): Sys
    requires Good(s.m) && t in s.m.tables
  {
    TableFacts(s.m, t);
    ShapeFacts(s.m.tables[t], s.m.first);
    var o := SetBrk(s.m.pp, s.m.first, t, s.m.tables[t], to);
    Sys(With(s.m, t, o.pp, o.pt), if o.ok then s.brks[t := to] else s.brks)
  }

  /** The allocator's state lets it ask for this break. */
  ghost predicate Asks(s: Sys, t: nat, start: nat, bs: seq<HeapBlocks.Block>, size: nat, to: nat)
    requires t in s.brks
  {
    HeapBlocks.Tiled(bs, start, s.brks[t]) && HeapSteps.Raised(bs, s.brks[t], size, to)
  }

  /** One step, in which the kernel does not halt. */
  ghost predicate Next(s: Sys, step: Step, r: Sys)
    requires Safe(s)
  {
    match step
    case NewTable(t, kernel, l) =>
      && t !in s.m.tables && |kernel| == s.m.first && Sensible(l, s.m.first) && s.m.first <= |s.m.pp|
      && (match Create(s.m.pp, t, kernel, l)
          case Created(pp, pt) => r == Sys(With(s.m, t, pp, pt), s.brks[t := pt.brk])
          case Refused(pp) => r == Sys(s.m.(pp := pp), s.brks)
          case Halted => false)
    case DropTable(t) =>
      t in s.m.tables && r == Sys(AfterDestroy(s.m, t), s.brks - {t})
    case Raise(t, start, bs, size, to) =>
      t in s.m.tables && Asks(s, t, start, bs, size, to) && r == Moved(s, t, to)
    case Lower(t, to) =>
      t in s.m.tables && s.m.tables[t].heapBegin <= to <= s.brks[t] && r == Moved(s, t, to)
  }

  /** A raise that finds some free pages, but fewer than it wants. */
  predicate SpoiltBy(s: Sys, step: Step) {
    step.Raise? && step.t in s.m.tables && Spoils(s.m, step.t, step.to)
  }

  lemma PagesAgree()
    ensures HeapSteps.PAGE_SIZE == PAGE
  {
  }

  /** A request of the allocator never moves the break up from a page boundary inside its page. */
  lemma AllocatorBacked(pt: PT, to: nat)
    requires to <= pt.brk || to % PAGE == 0
    ensures !Unbacked(pt, to)
  {
  }

  lemma MovedSafe(s: Sys, t: nat, to: nat)
    requires Safe(s) && t in s.m.tables && (to <= s.brks[t] || to % PAGE == 0)
    ensures Safe(Moved(s, t, to)) <==> !Spoils(s.m, t, to)
  {
    hide Mapped, Good, SetBrk, Unbacked, Spoils, Shape;
    assert HeapSafe(s, t);
    SetBrkKeeps(s.m, t, to);
    SetBrkMapped(s.m, t, to);
    AllocatorBacked(s.m.tables[t], to);
    var r := Moved(s, t, to);
    BrkOutIs(s.m, t, to);
    forall u | u in r.m.tables
      ensures HeapSafe(r, u)
    {
      assert u != t ==> HeapSafe(s, u);
    }
  }

  /** Lowering a break always succeeds: the allocator's check that it did never fails. */
  lemma LowerSucceeds(s: Sys, t: nat, to: nat)
    requires Safe(s) && t in s.m.tables && s.m.tables[t].heapBegin <= to <= s.brks[t]
    ensures !Spoils(s.m, t, to) && Moved(s, t, to).brks[t] == to
  {
    hide Mapped, Good, SetBrk, Shape, FreeCount, Missing;
    assert HeapSafe(s, t);
    SetBrkKeeps(s.m, t, to);
    LowerInHeap(s.m.tables[t], s.m.first, to);
    TableFacts(s.m, t);
  }

  lemma LowerInHeap(pt: PT, first: nat, to: nat)
    requires pt.heapBegin <= to <= pt.brk
    ensures Shape(pt, first) ==> InHeap(pt, to)
    ensures Wanted(pt, to) == 0
  {
  }

  /** A step keeps everything if and only if it is not a raise that finds too few pages. */
  lemma StepSafe(s: Sys, step: Step, r: Sys)
    requires Safe(s) && Next(s, step, r)
    ensures Safe(r) <==> !SpoiltBy(s, step)
  {
    hide Mapped, Good, SetBrk, Create, AfterDestroy, Moved, Spoils, Shape;
    match step
    case NewTable(t, kernel, l) =>
      CreateKeeps(s.m, t, kernel, l);
      forall u | u in r.m.tables
        ensures HeapSafe(r, u)
      {
        assert u != t ==> HeapSafe(s, u);
      }
    case DropTable(t) =>
      DestroyKeeps(s.m, t);
      DestroyIs(s.m, t);
      forall u | u in r.m.tables
        ensures HeapSafe(r, u)
      {
        assert HeapSafe(s, u);
      }
    case Raise(t, start, bs, size, to) =>
      HeapSteps.RaisesByPages(bs, start, s.brks[t], size, to);
      PagesAgree();
      MovedSafe(s, t, to);
    case Lower(t, to) =>
      LowerSucceeds(s, t, to);
      MovedSafe(s, t, to);
  }

  lemma DestroyIs(m: M, t: nat)
    ensures AfterDestroy(m, t).tables == m.tables - {t}
  {
  }

  ghost predicate Run(ss: seq<Sys>, steps: seq<Step>) {
    |ss| == |steps| + 1 && forall k :: 0 <= k < |steps| ==> Safe(ss[k]) ==> Next(ss[k], steps[k], ss[k + 1])
  }

  /** In a run the breaks agree, pages and entries match and all heap bytes are mapped at all times if
      and only if no raise finds some free pages but too few. */
  lemma {:induction false} RunSafe(ss: seq<Sys>, steps: seq<Step>, n: nat)
    requires Run(ss, steps) && Safe(ss[0]) && n <= |steps|
    ensures (forall k :: 0 <= k <= n ==> Safe(ss[k])) <==> forall k :: 0 <= k < n ==> !SpoiltBy(ss[k], steps[k])
  {
    hide Safe, SpoiltBy, Next;
    if n > 0 {
      RunSafe(ss, steps, n - 1);
      if Safe(ss[n - 1]) {
        StepSafe(ss[n - 1], steps[n - 1], ss[n]);
      }
    }
  }

  // ---------- rights ----------

  /** Every user entry of every table gives access to its page and to nothing else. */
  ghost predicate AllRights(m: M) {
    forall t :: t in m.tables ==> Rights(m.tables[t].data, m.first)
  }

  lemma PagesThere(m: M, t: nat)
    requires Good(m) && t in m.tables
    ensures 0 < m.first <= |m.pp| && Shape(m.tables[t], m.first)
    ensures forall k :: m.first <= k < |m.tables[t].data| ==> Page(m.tables[t].data[k]) < |m.pp|
  {
    TableFacts(m, t);
    hide Page;
    forall k | m.first <= k < |m.tables[t].data|
      ensures Page(m.tables[t].data[k]) < |m.pp|
    {
      assert Page(m.tables[t].data[k]) != 0 ==> OwnedBy(m.pp, m.first, Page(m.tables[t].data[k]), t, k);
    }
  }

  lemma MovedRights(s: Sys, t: nat, to: nat)
    requires Safe(s) && t in s.m.tables && AllRights(s.m)
    ensures AllRights(Moved(s, t, to).m)
  {
    hide Page, SetBrk, Good, Rights, Shape, Moves, HeapSafe;
    PagesThere(s.m, t);
    var pt := s.m.tables[t];
    ShapeFacts(pt, s.m.first);
    SetBrkMoves(s.m.pp, s.m.first, t, pt, to);
    var o := SetBrk(s.m.pp, s.m.first, t, pt, to);
    if pt.heapBegin <= to <= pt.heapEnd {
      MovesRights(pt.data, o.pt.data, s.m.first, pt.brk, to, o.ok);
    }
  }

  /** Every step keeps this, also one that runs out of pages half-way. */
  lemma StepRights(s: Sys, step: Step, r: Sys)
    requires Safe(s) && Next(s, step, r) && AllRights(s.m)
    ensures AllRights(r.m)
  {
    hide SetBrk, Create, Moved, Shape, Rights, Released, Asks;
    match step
    case NewTable(t, kernel, l) =>
      FirstFacts(s.m);
      if Create(s.m.pp, t, kernel, l).Created? {
        CreateRights(s.m.pp, t, kernel, l);
      }
    case DropTable(t) =>
    case Raise(t, start, bs, size, to) => MovedRights(s, t, to);
    case Lower(t, to) => MovedRights(s, t, to);
  }

  lemma FirstFacts(m: M)
    requires Good(m)
    ensures 0 < m.first <= |m.pp|
  {
  }

  /** In every run in which no raise runs out of pages half-way, a user entry with a page can be read and written, and one
      without gives no access. */
  lemma {:induction false} RunRights(ss: seq<Sys>, steps: seq<Step>, n: nat)
    requires Run(ss, steps) && Safe(ss[0]) && AllRights(ss[0].m) && n <= |steps|
    requires forall k :: 0 <= k < n ==> !SpoiltBy(ss[k], steps[k])
    ensures Safe(ss[n]) && AllRights(ss[n].m)
  {
    hide Safe, SpoiltBy, Next, AllRights;
    RunSafe(ss, steps, n);
    if n > 0 {
      RunRights(ss, steps, n - 1);
      StepRights(ss[n - 1], steps[n - 1], ss[n]);
    }
  }

  /** The memory a process sees at address `a`: the physical page behind it. */
  ghost function PageAt(s: Sys, t: nat, a: nat): nat {
    if t in s.m.tables && a / PAGE < |s.m.tables[t].data| then Page(s.m.tables[t].data[a / PAGE]) else 0
  }

  /** Every heap address below the allocator's break has a page that belongs to the process at just
      that place; two addresses of two processes, or in two pages of one, never share a page. */
  lemma HeapBytesOwned(s: Sys, t: nat, a: nat, u: nat, b: nat)
    requires Safe(s) && t in s.m.tables && s.m.tables[t].heapBegin <= a < s.brks[t]
    requires u in s.m.tables && s.m.tables[u].heapBegin <= b < s.brks[u]
    ensures OwnedBy(s.m.pp, s.m.first, PageAt(s, t, a), t, a / PAGE)
    ensures PageAt(s, t, a) == PageAt(s, u, b) <==> t == u && a / PAGE == b / PAGE
  {
    HeapByte(s, t, a);
    HeapByte(s, u, b);
  }

  lemma HeapByte(s: Sys, t: nat, a: nat)
    requires Safe(s) && t in s.m.tables && s.m.tables[t].heapBegin <= a < s.brks[t]
    ensures OwnedBy(s.m.pp, s.m.first, PageAt(s, t, a), t, a / PAGE)
  {
    hide Page;
    assert HeapSafe(s, t) && TableOk(s.m, t);
    var pt, k := s.m.tables[t], a / PAGE;
    assert Shape(pt, s.m.first) && Held(s.m.pp, s.m.first, t, pt.data);
    assert k * PAGE <= a < k * PAGE + PAGE;
    assert k < |pt.data| && pt.heapBegin <= k * PAGE;
    assert Page(pt.data[k]) != 0;
  }

  /** A kernel that has just started, without processes. */
  lemma StartSafe(pp: seq<PPInfo>, first: nat)
    requires 0 < first <= |pp| && (forall p :: 0 <= p < first ==> pp[p].owner == Kernel)
    requires forall p :: first <= p < |pp| ==> pp[p] == FREE
    ensures Safe(Sys(M(pp, first, map[]), map[]))
  {
  }
}
