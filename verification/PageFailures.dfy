/** Runs from the start of the kernel in which a break goes wrong: one that is granted without memory, and
    one that leaves two processes with one page. */
module PageFailures {
  import opened PageState
  import opened PageBreaks
  import opened PageTables
  import opened PageRuns
  import HeapBlocks
  import HeapSteps

  /** Six pages, the first of them the kernel's. */
  const PAGES: seq<PPInfo> := [PPInfo(Kernel, 0), FREE, FREE, FREE, FREE, FREE]

  /** A stack of one page and a heap of up to three. */
  const LAYOUT: Layout := Layout(PAGE, 4 * PAGE, 5 * PAGE, 6 * PAGE, 6 * PAGE)

  /** What entries hold besides the page: of pages that are there, and of others. */
  const THERE: nat := 3074
  const NOT_THERE: nat := 3072

  lemma LayoutIs()
    ensures CalcLayout(PAGE, PAGE, 3 * PAGE, 0) == LAYOUT && Sensible(LAYOUT, 1)
    ensures Bits(MMU_PTE_RW, true) == THERE && Bits(MMU_PTE_RW, false) == NOT_THERE && StackMapped(LAYOUT) == 5 * PAGE
    ensures Blank([0], LAYOUT) == [0, 0, 0, 0, 0, 0]
  {
  }

  // ---------- setting single entries ----------

  /** An entry that gets the first free page. */
  lemma GetsPage(pp: seq<PPInfo>, data: seq<nat>, i: nat, last: int, q: nat)
    requires 1 <= |pp| && i <= last < |data| && data[i] < PAGE && 1 <= q < |pp| && pp[q].owner == Nobody
    requires forall k :: 1 <= k < q ==> pp[k].owner != Nobody
    ensures SetPages(pp, 1, data, i, last, true, THERE)
            == SetPages(pp[q := PPInfo(Tag, i)], 1, data[i := q * PAGE + THERE], i + 1, last, true, THERE)
  {
    assert FirstFree(pp, 1) == q;
  }

  /** An entry that has no page and gets none. */
  lemma StaysEmpty(pp: seq<PPInfo>, data: seq<nat>, i: nat, last: int)
    requires 1 <= |pp| && i <= last < |data| && data[i] < PAGE
    ensures SetPages(pp, 1, data, i, last, false, NOT_THERE) == SetPages(pp, 1, data[i := NOT_THERE], i + 1, last, false, NOT_THERE)
  {
  }

  lemma AllSet(pp: seq<PPInfo>, data: seq<nat>, i: nat, last: int, alloc: bool, bits: nat)
    requires 1 <= |pp| && last < |data| && i > last
    ensures SetPages(pp, 1, data, i, last, alloc, bits) == Out(true, pp, data)
  {
  }

  // ---------- two processes ----------

  /** The entries of a table that was created with heap page `h` and stack page `s`. */
  function Entries(h: nat, s: nat): seq<nat> {
    [0, h * PAGE + THERE, NOT_THERE, NOT_THERE, 0, s * PAGE + THERE]
  }

  /** Creating a table takes the first free page for its heap and the second one for its stack. */
  lemma CreatesFrom(pp: seq<PPInfo>, t: nat, h: nat)
    requires |pp| == 6 && 1 <= h && h + 1 < 6 && pp[h] == pp[h + 1] == FREE
    requires forall k :: 1 <= k < h ==> pp[k].owner != Nobody && pp[k].owner != Tag
    requires forall k :: h + 1 < k < 6 ==> pp[k].owner != Tag
    requires pp[0].owner == Kernel
    ensures Create(pp, t, [0], LAYOUT)
            == Created(pp[h := PPInfo(Table(t), 1)][h + 1 := PPInfo(Table(t), 5)], PT(Entries(h, h + 1), PAGE, 4 * PAGE, 2 * PAGE))
  {
    LayoutIs();
    var p1 := pp[h := PPInfo(Tag, 1)];
    var d2 := [0, h * PAGE + THERE, NOT_THERE, NOT_THERE, 0, 0];
    HeapFrom(pp, h);
    StackFrom(p1, d2, h);
    CommitsTwo(pp, t, h);
  }

  lemma HeapFrom(pp: seq<PPInfo>, h: nat)
    requires |pp| == 6 && 1 <= h < 6 && pp[h] == FREE && forall k :: 1 <= k < h ==> pp[k].owner != Nobody
    ensures HeapPart(pp, 1, [0, 0, 0, 0, 0, 0], LAYOUT)
            == Out(true, pp[h := PPInfo(Tag, 1)], [0, h * PAGE + THERE, NOT_THERE, NOT_THERE, 0, 0])
  {
    LayoutIs();
    var d1 := [0, NOT_THERE, NOT_THERE, NOT_THERE, 0, 0];
    HeapUnmapped(pp);
    var p1 := pp[h := PPInfo(Tag, 1)];
    var d2 := [0, h * PAGE + THERE, NOT_THERE, NOT_THERE, 0, 0];
    GetsPage(pp, d1, 1, 1, h);
    assert d1[1 := h * PAGE + THERE] == d2;
    AllSet(p1, d2, 2, 1, true, THERE);
  }

  lemma StackFrom(pp: seq<PPInfo>, d: seq<nat>, h: nat)
    requires |pp| == 6 && 1 <= h && h + 1 < 6 && pp[h + 1] == FREE && forall k :: 1 <= k < h + 1 ==> pp[k].owner != Nobody
    requires d == [0, h * PAGE + THERE, NOT_THERE, NOT_THERE, 0, 0]
    ensures StackPart(pp, 1, d, LAYOUT) == Out(true, pp[h + 1 := PPInfo(Tag, 5)], Entries(h, h + 1))
  {
    LayoutIs();
    var d3 := [0, h * PAGE + THERE, NOT_THERE, NOT_THERE, 0, NOT_THERE];
    StaysEmpty(pp, d, 5, 5);
    assert d[5 := NOT_THERE] == d3;
    AllSet(pp, d3, 6, 5, false, NOT_THERE);
    GetsPage(pp, d3, 5, 5, h + 1);
    assert d3[5 := (h + 1) * PAGE + THERE] == Entries(h, h + 1);
    AllSet(pp[h + 1 := PPInfo(Tag, 5)], Entries(h, h + 1), 6, 5, true, THERE);
  }

  lemma CommitsTwo(pp: seq<PPInfo>, t: nat, h: nat)
    requires |pp| == 6 && 1 <= h && h + 1 < 6 && pp[0].owner == Kernel
    requires forall k :: 1 <= k < 6 && k != h && k != h + 1 ==> pp[k].owner != Tag
    ensures Finished(pp[h := PPInfo(Tag, 1)][h + 1 := PPInfo(Tag, 5)], 1, t, true)
            == pp[h := PPInfo(Table(t), 1)][h + 1 := PPInfo(Table(t), 5)]
  {
  }

  lemma HeapUnmapped(pp: seq<PPInfo>)
    requires |pp| == 6
    ensures SetRange(pp, 1, [0, 0, 0, 0, 0, 0], PAGE, 4 * PAGE, false, MMU_PTE_RW)
            == Out(true, pp, [0, NOT_THERE, NOT_THERE, NOT_THERE, 0, 0])
  {
    LayoutIs();
    var d0 := [0, 0, 0, 0, 0, 0];
    var d1 := [0, NOT_THERE, 0, 0, 0, 0];
    var d2 := [0, NOT_THERE, NOT_THERE, 0, 0, 0];
    var d3 := [0, NOT_THERE, NOT_THERE, NOT_THERE, 0, 0];
    StaysEmpty(pp, d0, 1, 3);
    assert d0[1 := NOT_THERE] == d1;
    StaysEmpty(pp, d1, 2, 3);
    assert d1[2 := NOT_THERE] == d2;
    StaysEmpty(pp, d2, 3, 3);
    assert d2[3 := NOT_THERE] == d3;
    AllSet(pp, d3, 4, 3, false, NOT_THERE);
  }

  /** The start, and the states in which processes 7 and 8 have been created. */
  function Boot(): Sys {
    Sys(M(PAGES, 1, map[]), map[])
  }

  function One(): Sys {
    Sys(M(PAGES[1 := PPInfo(Table(7), 1)][2 := PPInfo(Table(7), 5)], 1, map[7 := PT(Entries(1, 2), PAGE, 4 * PAGE, 2 * PAGE)]),
        map[7 := 2 * PAGE])
  }

  function Two(): Sys {
    Sys(M(One().m.pp[3 := PPInfo(Table(8), 1)][4 := PPInfo(Table(8), 5)], 1,
          One().m.tables[8 := PT(Entries(3, 4), PAGE, 4 * PAGE, 2 * PAGE)]),
        One().brks[8 := 2 * PAGE])
  }

  /** The steps that lead there. */
  lemma OneReached()
    ensures Safe(Boot()) && Safe(One()) && Next(Boot(), NewTable(7, [0], LAYOUT), One())
  {
    hide *;
    BootIs();
    LayoutIs();
    StartSafe(PAGES, 1);
    OneIs();
    CreatesFrom(PAGES, 7, 1);
    NextCreated(Boot(), 7, One());
    NotSpoilt(Boot(), 7);
    StepSafe(Boot(), NewTable(7, [0], LAYOUT), One());
  }

  lemma TwoReached()
    ensures Safe(One()) && Safe(Two()) && Next(One(), NewTable(8, [0], LAYOUT), Two())
  {
    hide *;
    OneReached();
    LayoutIs();
    OneIs();
    TwoIs();
    CreatesFrom(One().m.pp, 8, 3);
    NextCreated(One(), 8, Two());
    NotSpoilt(One(), 8);
    StepSafe(One(), NewTable(8, [0], LAYOUT), Two());
  }

  lemma BootIs()
    ensures Boot() == Sys(M(PAGES, 1, map[]), map[])
    ensures |PAGES| == 6 && PAGES[0].owner == Kernel && forall k :: 1 <= k < 6 ==> PAGES[k] == FREE
    ensures FREE.owner == Nobody
  {
  }

  lemma OneIs()
    ensures One().m.first == 1 && |One().m.pp| == 6 && 8 !in One().m.tables && One().m.tables.Keys == {7} && One().m.tables[7] == PT(Entries(1, 2), PAGE, 4 * PAGE, 2 * PAGE)
    ensures One().m.pp[0].owner == Kernel && One().m.pp[1].owner == One().m.pp[2].owner == Table(7)
    ensures One().m.pp[3] == One().m.pp[4] == One().m.pp[5] == FREE && FREE.owner == Nobody
    ensures One() == Sys(With(Boot().m, 7, PAGES[1 := PPInfo(Table(7), 1)][2 := PPInfo(Table(7), 5)],
                              PT(Entries(1, 2), PAGE, 4 * PAGE, 2 * PAGE)), Boot().brks[7 := 2 * PAGE])
  {
  }

  lemma TwoIs()
    ensures Two() == Sys(With(One().m, 8, One().m.pp[3 := PPInfo(Table(8), 1)][4 := PPInfo(Table(8), 5)],
                              PT(Entries(3, 4), PAGE, 4 * PAGE, 2 * PAGE)), One().brks[8 := 2 * PAGE])
  {
  }

  lemma NextCreated(s: Sys, t: nat, r: Sys)
    requires Safe(s) && t !in s.m.tables && s.m.first == 1 && |s.m.pp| == 6 && Sensible(LAYOUT, 1)
    requires var c := Create(s.m.pp, t, [0], LAYOUT); c.Created? && r == Sys(With(s.m, t, c.pp, c.pt), s.brks[t := c.pt.brk])
    ensures Next(s, NewTable(t, [0], LAYOUT), r)
  {
  }

  lemma NotSpoilt(s: Sys, t: nat)
    ensures !SpoiltBy(s, NewTable(t, [0], LAYOUT))
  {
  }

  // ---------- a break without memory ----------

  /** A process that was just created moves its break, which stands at the end of its one heap page, into
      the next page: that is granted, and nothing is behind it. */
  lemma UnbackedGranted()
    ensures Safe(Boot()) && Safe(One()) && Next(Boot(), NewTable(7, [0], LAYOUT), One())
    ensures var pt := PT(Entries(1, 2), PAGE, 4 * PAGE, 2 * PAGE);
            var o := SetBrk(One().m.pp, 1, 7, pt, 2 * PAGE + 100);
            One().m.tables[7] == pt && Mapped(pt) && o.ok && !Mapped(o.pt)
  {
    OneReached();
    OneIs();
    hide Safe, Next, One;
    var pt := PT(Entries(1, 2), PAGE, 4 * PAGE, 2 * PAGE);
    assert Page(pt.data[1]) == 1;
    var o := SetBrk(One().m.pp, 1, 7, pt, 2 * PAGE + 100);
    assert o.pt == pt.(brk := 2 * PAGE + 100) && Page(o.pt.data[2]) == 0;
  }

  // ---------- two processes with one page ----------

  /** Process 7 has asked for two pages when one was free: it was refused, and its table keeps the page,
      which is free again. */
  function Spoilt(): Sys {
    Sys(With(Two().m, 7, Two().m.pp, PT(Entries(1, 2)[2 := 5 * PAGE + THERE], PAGE, 4 * PAGE, 2 * PAGE)), Two().brks)
  }

  /** What the heap of a new process looks like, and a request that needs two pages more. */
  const HEAP: seq<HeapBlocks.Block> := [HeapBlocks.Block(PAGE, 0)]
  const REQUEST: nat := 12268

  lemma AsksForTwo(s: Sys)
    requires 7 in s.brks && s.brks[7] == 2 * PAGE
    ensures Asks(s, 7, PAGE, HEAP, REQUEST, 4 * PAGE)
  {
    assert HeapBlocks.Cap(HEAP, 2 * PAGE, 0) == 4080 && HeapSteps.Request(REQUEST, true, 4080) == 8192;
    assert HeapBlocks.FineAt(HEAP, 2 * PAGE, 0);
  }

  lemma TwoFacts()
    ensures Two().m.first == 1 && |Two().m.pp| == 6 && Two().brks == map[7 := 2 * PAGE, 8 := 2 * PAGE]
    ensures Two().m.tables == map[7 := PT(Entries(1, 2), PAGE, 4 * PAGE, 2 * PAGE), 8 := PT(Entries(3, 4), PAGE, 4 * PAGE, 2 * PAGE)]
    ensures Two().m.pp == [PPInfo(Kernel, 0), PPInfo(Table(7), 1), PPInfo(Table(7), 5), PPInfo(Table(8), 1), PPInfo(Table(8), 5), FREE]
  {
  }

  /** Two entries, and one page for them. */
  lemma RunsOut(pp: seq<PPInfo>)
    requires pp == [PPInfo(Kernel, 0), PPInfo(Table(7), 1), PPInfo(Table(7), 5), PPInfo(Table(8), 1), PPInfo(Table(8), 5), FREE]
    ensures SetBrk(pp, 1, 7, PT(Entries(1, 2), PAGE, 4 * PAGE, 2 * PAGE), 4 * PAGE)
            == BrkOut(false, pp, PT(Entries(1, 2)[2 := 5 * PAGE + THERE], PAGE, 4 * PAGE, 2 * PAGE))
  {
    LayoutIs();
    var d := Entries(1, 2);
    var tagged := pp[5 := PPInfo(Tag, 2)];
    GetsPage(pp, d, 2, 3, 5);
    NoPageLeft(tagged, d[2 := 5 * PAGE + THERE]);
    hide SetPages;
    assert SetRange(pp, 1, d, 2 * PAGE, 4 * PAGE, true, MMU_PTE_RW) == Out(false, tagged, d[2 := 5 * PAGE + THERE]);
    assert Finished(tagged, 1, 7, false) == pp;
  }

  lemma NoPageLeft(pp: seq<PPInfo>, data: seq<nat>)
    requires |pp| == 6 && |data| == 6 && data[3] < PAGE && forall k :: 1 <= k < 6 ==> pp[k].owner != Nobody
    ensures SetPages(pp, 1, data, 3, 3, true, THERE) == Out(false, pp, data)
  {
    assert FirstFree(pp, 1) == 6;
  }

  /** Process 8 asks for one page and gets it. */
  lemma GetsIt(pp: seq<PPInfo>)
    requires pp == [PPInfo(Kernel, 0), PPInfo(Table(7), 1), PPInfo(Table(7), 5), PPInfo(Table(8), 1), PPInfo(Table(8), 5), FREE]
    ensures SetBrk(pp, 1, 8, PT(Entries(3, 4), PAGE, 4 * PAGE, 2 * PAGE), 3 * PAGE)
            == BrkOut(true, pp[5 := PPInfo(Table(8), 2)], PT(Entries(3, 4)[2 := 5 * PAGE + THERE], PAGE, 4 * PAGE, 3 * PAGE))
  {
    LayoutIs();
    var d := Entries(3, 4);
    var tagged := pp[5 := PPInfo(Tag, 2)];
    GetsPage(pp, d, 2, 2, 5);
    AllSet(tagged, d[2 := 5 * PAGE + THERE], 3, 2, true, THERE);
    hide SetPages;
    assert SetRange(pp, 1, d, 2 * PAGE, 3 * PAGE, true, MMU_PTE_RW) == Out(true, tagged, d[2 := 5 * PAGE + THERE]);
    assert Finished(tagged, 1, 8, true) == pp[5 := PPInfo(Table(8), 2)];
  }

  /** When process 8 raises its break by a page now, it gets page 5, which table 7 refers to as well. */
  predicate SharesPage(s: Sys) {
    && |s.m.pp| == 6 && 7 in s.m.tables && 8 in s.m.tables && |s.m.tables[7].data| == 6
    && s.m.tables[8] == PT(Entries(3, 4), PAGE, 4 * PAGE, 2 * PAGE)
    && var q := SetBrk(s.m.pp, 1, 8, PT(Entries(3, 4), PAGE, 4 * PAGE, 2 * PAGE), 3 * PAGE);
       && q.ok && |q.pp| == |q.pt.data| == 6 && q.pp[5].owner == Table(8)
       && Page(s.m.tables[7].data[2]) == Page(q.pt.data[2]) == 5
  }

  /** From the start of the kernel: two processes are created; the allocator of process 7 asks for two
      pages when one is free, is refused, and the table keeps the page; then process 8 asks for one page,
      gets the same one, and the page is its own. */
  lemma SpoiltTablesShare()
    ensures Run([Boot(), One(), Two(), Spoilt()],
                [NewTable(7, [0], LAYOUT), NewTable(8, [0], LAYOUT), Raise(7, PAGE, HEAP, REQUEST, 4 * PAGE)])
    ensures Safe(Boot()) && Safe(Two()) && SpoiltBy(Two(), Raise(7, PAGE, HEAP, REQUEST, 4 * PAGE)) && !Safe(Spoilt())
    ensures SharesPage(Spoilt())
  {
    OneReached();
    TwoReached();
    TwoFacts();
    hide Safe, Next, One, Two, SetBrk, SpoiltBy;
    RunsOut(Two().m.pp);
    GetsIt(Two().m.pp);
    Spoils7(Two());
    StepSafe(Two(), Raise(7, PAGE, HEAP, REQUEST, 4 * PAGE), Spoilt());
  }

  lemma Spoils7(s: Sys)
    requires s == Two() && Safe(s)
    ensures Next(s, Raise(7, PAGE, HEAP, REQUEST, 4 * PAGE), Spoilt()) && SpoiltBy(s, Raise(7, PAGE, HEAP, REQUEST, 4 * PAGE))
  {
    hide Safe, Two, SetBrk, Asks, Missing, FreeCount, Entries, Spoilt, Spoils, Moved;
    TwoFacts();
    SafeGood(s);
    AsksForTwo(s);
    MovedIs(s);
    MissingTwo();
    FreeOne(s.m.pp);
    SpoilsIs(s);
  }

  lemma SafeGood(s: Sys)
    requires Safe(s)
    ensures Good(s.m)
  {
  }

  lemma MovedIs(s: Sys)
    requires s == Two() && Good(s.m) && 7 in s.m.tables
    ensures Moved(s, 7, 4 * PAGE) == Spoilt()
  {
    hide Good, Two, SetBrk, Entries;
    TwoFacts();
    RunsOut(s.m.pp);
  }

  lemma SpoilsIs(s: Sys)
    requires s == Two() && Missing(Entries(1, 2), 2, 3) == 2 && FreeCount(s.m.pp, 1) == 1 && 7 in s.m.tables
    ensures Spoils(s.m, 7, 4 * PAGE)
  {
    hide Two, Missing, FreeCount, Entries;
    TwoFacts();
    assert InHeap(s.m.tables[7], 4 * PAGE) && Wanted(s.m.tables[7], 4 * PAGE) == 2 && FreeCount(s.m.pp, 1) == 1;
  }

  lemma MissingTwo()
    ensures Missing(Entries(1, 2), 2, 3) == 2
  {
    var d := Entries(1, 2);
    assert Page(d[2]) == 0 && Page(d[3]) == 0;
    assert Missing(d, 4, 3) == 0;
    assert Missing(d, 3, 3) == 1;
  }

  lemma FreeOne(pp: seq<PPInfo>)
    requires |pp| == 6 && pp[5] == FREE && forall k :: 1 <= k < 5 ==> pp[k].owner != Nobody
    ensures FreeCount(pp, 1) == 1
  {
    assert FreeCount(pp, 6) == 0;
    assert FreeCount(pp, 5) == 1;
    assert FreeCount(pp, 4) == 1;
    assert FreeCount(pp, 3) == 1;
    assert FreeCount(pp, 2) == 1;
  }
}
