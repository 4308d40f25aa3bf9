/** The layout of a new page table, and creating one. */
module PageTables {
  import opened PageState
  import opened PageBreaks

  /** The user part of an address space, from the heap up to the shared data at its top. */
  datatype Layout = Layout(heapBegin: nat, heapEnd: nat, stackBegin: nat, stackEnd: nat, sharedEnd: nat)

  /** The layout for a stack and a heap of at least the given sizes, or none without a stack; `base` is
      the end of the kernel's part. */
  function CalcLayout(base: nat, stackBytes: nat, heapBytes: nat, shared: nat): (l: Layout)
    requires stackBytes > 0
  {
    var heapEnd := if heapBytes == 0 then base else PageUp(base + heapBytes);
    var stackBegin := if heapEnd == base then heapEnd else heapEnd + PAGE;
    var sharedEnd := PageUp(stackBegin + stackBytes + shared);
    Layout(base, heapEnd, stackBegin, sharedEnd - shared, sharedEnd)
  }

  /** Heap, guard page, stack and shared data follow each other without overlap, everything asked for
      fits, and there is a guard page exactly if there is a heap. */
  lemma LayoutFits(base: nat, stackBytes: nat, heapBytes: nat, shared: nat)
    requires base % PAGE == 0 && stackBytes > 0
    ensures var l := CalcLayout(base, stackBytes, heapBytes, shared);
            && l.heapBegin == base && base + heapBytes <= l.heapEnd && (heapBytes == 0 ==> l.heapEnd == base)
            && l.stackBegin == l.heapEnd + (if heapBytes == 0 then 0 else PAGE)
            && l.stackBegin + stackBytes <= l.stackEnd && l.stackEnd + shared == l.sharedEnd
            && l.heapEnd % PAGE == 0 && l.stackBegin % PAGE == 0 && l.sharedEnd % PAGE == 0
            && l.sharedEnd < l.stackBegin + stackBytes + shared + PAGE
            && (heapBytes > 0 ==> l.heapEnd < base + heapBytes + PAGE)
  {
  }

  /** Where the first mapped page of the stack starts. */
  function StackMapped(l: Layout): nat
    requires l.stackEnd > 0
  {
    (l.stackEnd - 1) / PAGE * PAGE
  }

  datatype CreateOut = Created(pp: seq<PPInfo>, pt: PT) | Refused(pp: seq<PPInfo>) | Halted

  /** What the parts of a layout have to satisfy to build a table. */
  predicate Sensible(l: Layout, first: nat) {
    && l.heapBegin == first * PAGE && l.heapBegin <= l.heapEnd <= l.stackBegin < l.stackEnd <= l.sharedEnd
    && l.heapEnd % PAGE == 0 && l.stackBegin % PAGE == 0 && l.sharedEnd % PAGE == 0
    && (l.heapBegin < l.heapEnd ==> l.heapEnd < l.stackBegin)
  }

  lemma LayoutSensible(first: nat, stackBytes: nat, heapBytes: nat, shared: nat)
    requires stackBytes > 0
    ensures Sensible(CalcLayout(first * PAGE, stackBytes, heapBytes, shared), first)
  {
    LayoutFits(first * PAGE, stackBytes, heapBytes, shared);
  }

  function Zeros(n: nat): (z: seq<nat>)
    ensures |z| == n && forall k :: 0 <= k < n ==> z[k] == 0
  {
    seq(n, k => 0)
  }

  /** A table before any page is allocated: the kernel's entries, and none for the user. */
  function Blank(kernel: seq<nat>, l: Layout): (d: seq<nat>)
    requires Sensible(l, |kernel|)
    ensures |d| * PAGE == l.sharedEnd && d[..|kernel|] == kernel
  {
    kernel + Zeros(l.sharedEnd / PAGE - |kernel|)
  }

  /** Heap entries, with the first heap page allocated if there is a heap. */
  function HeapPart(pp: seq<PPInfo>, first: nat, data: seq<nat>, l: Layout): (o: Out)
    requires first <= |pp| && Sensible(l, first) && l.sharedEnd <= |data| * PAGE
    ensures |o.pp| == |pp| && |o.data| == |data|
  {
    var a := SetRange(pp, first, data, l.heapBegin, l.heapEnd, false, MMU_PTE_RW);
    if l.heapEnd != l.heapBegin then SetRange(a.pp, first, a.data, l.heapBegin, l.heapBegin + 1, true, MMU_PTE_RW) else a
  }

  /** Stack and shared data entries, with the top of the stack and the shared data allocated. */
  function StackPart(pp: seq<PPInfo>, first: nat, data: seq<nat>, l: Layout): (o: Out)
    requires first <= |pp| && Sensible(l, first) && l.sharedEnd <= |data| * PAGE
    ensures |o.pp| == |pp| && |o.data| == |data|
  {
    var a := SetRange(pp, first, data, l.stackBegin, l.sharedEnd, false, MMU_PTE_RW);
    SetRange(a.pp, first, a.data, StackMapped(l), l.sharedEnd, true, MMU_PTE_RW)
  }

  /** Create table `t`.  Without even a page for the heap the kernel halts; without pages for the
      stack everything is undone. */
  function Create(pp: seq<PPInfo>, t: nat, kernel: seq<nat>, l: Layout): CreateOut
    requires |kernel| <= |pp| && Sensible(l, |kernel|)
  {
    var first := |kernel|;
    var h := HeapPart(pp, first, Blank(kernel, l), l);
    if !h.ok then Halted
    else
      var s := StackPart(h.pp, first, h.data, l);
      var brk := if l.heapEnd != l.heapBegin then l.heapBegin + PAGE else l.heapBegin;
      if s.ok then Created(Finished(s.pp, first, t, true), PT(s.data, l.heapBegin, l.heapEnd, brk))
      else Refused(Finished(s.pp, first, t, false))
  }

  // ---------- what creating does ----------

  /** `SetRange` as what it does to the entries: those outside stay, pages stay, and an allocated range
      has pages. */
  lemma RangeSteps(pp0: seq<PPInfo>, pp: seq<PPInfo>, first: nat, data: seq<nat>, t: nat, vb: nat, ve: nat, alloc: bool)
    requires Clean(pp0, first) && Staged(pp0, pp, first, data, t) && first <= vb / PAGE && vb <= ve <= |data| * PAGE
    ensures first <= |pp|
    ensures var o := SetRange(pp, first, data, vb, ve, alloc, MMU_PTE_RW);
            && Staged(pp0, o.pp, first, o.data, t)
            && (forall k :: 0 <= k < |data| && (k < vb / PAGE || k * PAGE >= ve) ==> o.data[k] == data[k])
            && (!alloc ==> o.ok && forall k :: 0 <= k < |data| ==> Page(o.data[k]) == Page(data[k]))
            && (forall k :: 0 <= k < |data| && Page(data[k]) != 0 ==> Page(o.data[k]) != 0)
            && (o.ok && alloc ==> forall k :: 0 <= k < |data| && vb / PAGE <= k && k * PAGE < ve && vb < ve ==> Page(o.data[k]) != 0)
  {
    hide Staged, Page, Clean;
    StagedFirst(pp0, pp, first, data, t);
    if vb < ve {
      var last, bits := LastPage(ve), Bits(MMU_PTE_RW, alloc);
      SetPagesStaged(pp0, pp, first, data, t, vb / PAGE, last, alloc, bits);
      SetPagesData(pp, first, data, vb / PAGE, last, alloc, bits);
      if !alloc {
        SetPagesUnmapped(pp, first, data, vb / PAGE, last, bits);
      } else if SetPages(pp, first, data, vb / PAGE, last, alloc, bits).ok {
        SetPagesMaps(pp, first, data, vb / PAGE, last, bits);
      }
    }
  }

  /** Without allocation nothing can fail. */
  lemma RangeSucceeds(pp: seq<PPInfo>, first: nat, data: seq<nat>, vb: nat, ve: nat)
    requires first <= |pp| && vb <= ve <= |data| * PAGE
    ensures SetRange(pp, first, data, vb, ve, false, MMU_PTE_RW).ok
  {
    if vb < ve {
      SetPagesUnmapped(pp, first, data, vb / PAGE, LastPage(ve), Bits(MMU_PTE_RW, false));
    }
  }

  lemma BlankStaged(pp: seq<PPInfo>, t: nat, kernel: seq<nat>, l: Layout)
    requires Clean(pp, |kernel|) && Sensible(l, |kernel|)
    requires forall p :: |kernel| <= p < |pp| ==> pp[p].owner != Table(t)
    ensures var d := Blank(kernel, l);
            && Staged(pp, pp, |kernel|, d, t) && l.sharedEnd == |d| * PAGE
            && (forall k :: |kernel| <= k < |d| ==> Page(d[k]) == 0) && d[..|kernel|] == kernel
  {
    var d := Blank(kernel, l);
    forall k | |kernel| <= k < |d|
      ensures Page(d[k]) == 0
    {
      assert d[k] == 0;
    }
  }

  /** Which user entries of a new table have a page: the first of the heap, and those of the mapped top
      of the stack and of the shared data. */
  predicate InitiallyMapped(l: Layout, k: nat)
    requires l.stackEnd > 0
  {
    (l.heapBegin < l.heapEnd && k == l.heapBegin / PAGE) || StackMapped(l) / PAGE <= k
  }

  lemma HeapSteps(pp: seq<PPInfo>, t: nat, kernel: seq<nat>, l: Layout)
    requires Clean(pp, |kernel|) && Sensible(l, |kernel|)
    requires forall p :: |kernel| <= p < |pp| ==> pp[p].owner != Table(t)
    ensures |kernel| <= |pp| && l.sharedEnd == |Blank(kernel, l)| * PAGE
    ensures var first := |kernel|;
            var h := HeapPart(pp, first, Blank(kernel, l), l);
            && Staged(pp, h.pp, first, h.data, t) && h.data[..first] == kernel
            && (h.ok ==> forall k :: first <= k < |h.data| ==> (Page(h.data[k]) != 0 <==> l.heapBegin < l.heapEnd && k == first))
  {
    hide Staged, Page, Clean, SetRange, Blank;
    BlankStaged(pp, t, kernel, l);
    var first, d := |kernel|, Blank(kernel, l);
    RangeSteps(pp, pp, first, d, t, l.heapBegin, l.heapEnd, false);
    var a := SetRange(pp, first, d, l.heapBegin, l.heapEnd, false, MMU_PTE_RW);
    assert a.data[..first] == kernel;
    if l.heapEnd != l.heapBegin {
      RangeSteps(pp, a.pp, first, a.data, t, l.heapBegin, l.heapBegin + 1, true);
      var b := SetRange(a.pp, first, a.data, l.heapBegin, l.heapBegin + 1, true, MMU_PTE_RW);
      assert b.data[..first] == kernel;
      forall k | first <= k < |b.data| && b.ok
        ensures Page(b.data[k]) != 0 <==> k == first
      {
        assert k > first ==> k * PAGE >= l.heapBegin + 1;
      }
    }
  }

  lemma StackSteps(pp0: seq<PPInfo>, pp: seq<PPInfo>, first: nat, data: seq<nat>, t: nat, l: Layout)
    requires Clean(pp0, first) && Staged(pp0, pp, first, data, t) && Sensible(l, first) && l.sharedEnd == |data| * PAGE
    requires forall k :: first <= k < |data| ==> (Page(data[k]) != 0 <==> l.heapBegin < l.heapEnd && k == first)
    ensures first <= |pp|
    ensures var s := StackPart(pp, first, data, l);
            && Staged(pp0, s.pp, first, s.data, t) && s.data[..first] == data[..first]
            && (s.ok ==> forall k :: first <= k < |s.data| ==> (Page(s.data[k]) != 0 <==> InitiallyMapped(l, k)))
  {
    hide Staged, Page, Clean, SetRange;
    RangeSteps(pp0, pp, first, data, t, l.stackBegin, l.sharedEnd, false);
    var a := SetRange(pp, first, data, l.stackBegin, l.sharedEnd, false, MMU_PTE_RW);
    var sb := StackMapped(l);
    assert l.stackBegin <= sb < l.sharedEnd && sb % PAGE == 0;
    RangeSteps(pp0, a.pp, first, a.data, t, sb, l.sharedEnd, true);
    var s := SetRange(a.pp, first, a.data, sb, l.sharedEnd, true, MMU_PTE_RW);
    forall k | first <= k < |s.data| && s.ok
      ensures Page(s.data[k]) != 0 <==> InitiallyMapped(l, k)
    {
      assert k * PAGE < l.sharedEnd;
    }
    assert a.data[..first] == data[..first];
    assert s.data[..first] == a.data[..first];
  }

  /** A created table matches its pages, maps exactly the first heap page and the top of the stack, keeps
      the kernel's entries, and touches no page of another table; a refusal restores everything. */
  lemma CreateKeeps(m: M, t: nat, kernel: seq<nat>, l: Layout)
    requires Good(m) && t !in m.tables && |kernel| == m.first && Sensible(l, m.first)
    ensures m.first <= |m.pp|
    ensures match Create(m.pp, t, kernel, l)
            case Created(pp, pt) =>
              && Good(With(m, t, pp, pt)) && Mapped(pt) && pt.data[..m.first] == kernel && |pt.data| * PAGE == l.sharedEnd
              && (forall k :: m.first <= k < |pt.data| ==> (Page(pt.data[k]) != 0 <==> InitiallyMapped(l, k)))
              && (forall k :: m.first <= k < |pt.data| ==>
                    (pt.data[k] / 4096 != 0 <==> (l.heapBegin < l.heapEnd && k * 4096 == l.heapBegin) || l.stackEnd <= (k + 1) * 4096))
              && pt.heapBegin == l.heapBegin && pt.heapEnd == l.heapEnd
              && pt.brk == (if l.heapBegin < l.heapEnd then l.heapBegin + 4096 else l.heapBegin)
            case Refused(pp) => pp == m.pp
            case Halted => l.heapBegin < l.heapEnd
  {
    hide *;
    CleanFacts(m, t);
    HeapSteps(m.pp, t, kernel, l);
    var h := HeapPart(m.pp, m.first, Blank(kernel, l), l);
    HaltsForHeap(m.pp, m.first, Blank(kernel, l), l);
    CreateIs(m.pp, t, kernel, l);
    if h.ok {
      StackSteps(m.pp, h.pp, m.first, h.data, t, l);
      var s := StackPart(h.pp, m.first, h.data, l);
      var brk := if l.heapEnd != l.heapBegin then l.heapBegin + PAGE else l.heapBegin;
      var pt := PT(s.data, l.heapBegin, l.heapEnd, brk);
      RollbackRestores(m.pp, s.pp, m.first, s.data, t);
      CommitSettles(m.pp, s.pp, m.first, s.data, t);
      if s.ok {
        NewShape(pt, m.first, l);
        MappedIs(l, m.first);
        OneTable(m, t, Finished(s.pp, m.first, t, true), pt);
      }
    }
  }

  /** What is mapped at first, told by addresses: the first page of the heap, and the pages from the one with the last byte
      of the stack on. */
  lemma MappedIs(l: Layout, first: nat)
    requires Sensible(l, first)
    ensures l.stackEnd > 0 && l.heapBegin == first * 4096
    ensures forall k: nat :: InitiallyMapped(l, k) <==> (l.heapBegin < l.heapEnd && k * 4096 == l.heapBegin) || l.stackEnd <= (k + 1) * 4096
    ensures l.heapBegin <= l.heapEnd && PAGE == 4096
    ensures forall w: nat :: Page(w) == w / 4096
  {
  }

  lemma CleanFacts(m: M, t: nat)
    requires Good(m) && t !in m.tables
    ensures Clean(m.pp, m.first) && 0 < m.first <= |m.pp|
    ensures forall p :: m.first <= p < |m.pp| ==> m.pp[p].owner != Table(t)
  {
  }

  lemma HaltsForHeap(pp: seq<PPInfo>, first: nat, data: seq<nat>, l: Layout)
    requires first <= |pp| && Sensible(l, first) && l.sharedEnd <= |data| * PAGE
    ensures !HeapPart(pp, first, data, l).ok ==> l.heapBegin < l.heapEnd
  {
  }

  lemma CreateIs(pp: seq<PPInfo>, t: nat, kernel: seq<nat>, l: Layout)
    requires |kernel| <= |pp| && Sensible(l, |kernel|) && l.sharedEnd == |Blank(kernel, l)| * PAGE
    ensures var first := |kernel|;
            var h := HeapPart(pp, first, Blank(kernel, l), l);
            if !h.ok then Create(pp, t, kernel, l) == Halted
            else
              var s := StackPart(h.pp, first, h.data, l);
              var brk := if l.heapEnd != l.heapBegin then l.heapBegin + PAGE else l.heapBegin;
              Create(pp, t, kernel, l) ==
              if s.ok then Created(Finished(s.pp, first, t, true), PT(s.data, l.heapBegin, l.heapEnd, brk))
              else Refused(Finished(s.pp, first, t, false))
  {
  }

  lemma NewShape(pt: PT, first: nat, l: Layout)
    requires Sensible(l, first) && 0 < first && |pt.data| * PAGE == l.sharedEnd && pt.heapBegin == l.heapBegin && pt.heapEnd == l.heapEnd
    requires pt.brk == if l.heapEnd != l.heapBegin then l.heapBegin + PAGE else l.heapBegin
    requires forall k :: first <= k < |pt.data| ==> (Page(pt.data[k]) != 0 <==> InitiallyMapped(l, k))
    ensures Shape(pt, first) && Mapped(pt)
  {
  }
}
