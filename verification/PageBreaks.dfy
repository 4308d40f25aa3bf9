/** What setting a break, and creating and destroying a table, keep of the match between pages and
    table entries. */
module PageBreaks {
  import opened PageState

  // ---------- giving pages back ----------

  lemma FreeStep(pp: seq<PPInfo>, first: nat, data: seq<nat>, t: nat, i: nat)
    requires Clean(pp, first) && Held(pp, first, t, data) && Backed(pp, first, t, data)
    requires first <= i < |data| && Page(data[i]) != 0
    ensures first <= Page(data[i]) < |pp| && pp[Page(data[i])].owner == Table(t)
    ensures var p := Page(data[i]);
            var qq, e := pp[p := FREE], data[i := Emptied(data[i])];
            Clean(qq, first) && Held(qq, first, t, e) && Backed(qq, first, t, e) && OnlyMine(pp, qq, t)
  {
    hide Page, Emptied;
    var p := Page(data[i]);
    assert OwnedBy(pp, first, p, t, i);
    var qq, e := pp[p := FREE], data[i := Emptied(data[i])];
    forall k | first <= k < |e| && Page(e[k]) != 0
      ensures OwnedBy(qq, first, Page(e[k]), t, k)
    {
      assert k != i && OwnedBy(pp, first, Page(data[k]), t, k);
    }
    forall q | first <= q < |qq| && qq[q].owner == Table(t)
      ensures HeldAt(e, first, qq[q].vpage, q)
    {
      assert q != p && HeldAt(data, first, pp[q].vpage, q);
    }
  }

  lemma OnlyMineTwice(pp: seq<PPInfo>, qq: seq<PPInfo>, rr: seq<PPInfo>, t: nat)
    requires OnlyMine(pp, qq, t) && OnlyMine(qq, rr, t)
    ensures OnlyMine(pp, rr, t)
  {
  }

  /** Giving pages back keeps the match, empties exactly the entries of the range, and frees pages of
      the table only. */
  lemma {:induction false} FreePagesKeep(pp: seq<PPInfo>, first: nat, data: seq<nat>, t: nat, i: nat, end: nat)
    requires Clean(pp, first) && Held(pp, first, t, data) && Backed(pp, first, t, data) && first <= i && end <= |data|
    ensures var o := FreePages(pp, data, i, end);
            && Clean(o.pp, first) && Held(o.pp, first, t, o.data) && Backed(o.pp, first, t, o.data) && OnlyMine(pp, o.pp, t)
            && (forall k :: 0 <= k < |data| && (k < i || k >= end) ==> o.data[k] == data[k])
            && (forall k :: i <= k < end ==> Page(o.data[k]) == 0)
    decreases end - i
  {
    hide Page, Emptied, Clean, Held, Backed, OnlyMine;
    NothingChanged(pp, t);
    if i < end {
      var p := Page(data[i]);
      if p != 0 {
        FreeStep(pp, first, data, t, i);
        var qq, e := pp[p := FREE], data[i := Emptied(data[i])];
        FreePagesKeep(qq, first, e, t, i + 1, end);
        OnlyMineTwice(pp, qq, FreePages(qq, e, i + 1, end).pp, t);
      } else {
        FreePagesKeep(pp, first, data, t, i + 1, end);
      }
    }
  }

  lemma NothingChanged(pp: seq<PPInfo>, t: nat)
    ensures OnlyMine(pp, pp, t)
  {
  }

  // ---------- one table changes ----------

  lemma HeldElsewhere(pp: seq<PPInfo>, qq: seq<PPInfo>, first: nat, t: nat, u: nat, data: seq<nat>)
    requires OnlyMine(pp, qq, t) && t != u && Held(pp, first, u, data) && Backed(pp, first, u, data)
    ensures Held(qq, first, u, data) && Backed(qq, first, u, data)
  {
    hide Page;
    forall k | first <= k < |data| && Page(data[k]) != 0
      ensures OwnedBy(qq, first, Page(data[k]), u, k)
    {
      assert OwnedBy(pp, first, Page(data[k]), u, k);
    }
    forall p | first <= p < |qq| && qq[p].owner == Table(u)
      ensures HeldAt(data, first, qq[p].vpage, p)
    {
      assert pp[p] == qq[p];
    }
  }

  function With(m: M, t: nat, pp: seq<PPInfo>, pt: PT): M {
    M(pp, m.first, m.tables[t := pt])
  }

  /** A new state of one table, with pages that are its own or were free, fits the other tables. */
  lemma OneTable(m: M, t: nat, pp: seq<PPInfo>, pt: PT)
    requires Good(m) && OnlyMine(m.pp, pp, t) && Clean(pp, m.first) && Shape(pt, m.first)
    requires Held(pp, m.first, t, pt.data) && Backed(pp, m.first, t, pt.data)
    ensures Good(With(m, t, pp, pt))
  {
    hide Held, Backed, Shape;
    var r := With(m, t, pp, pt);
    forall u | u in r.tables
      ensures TableOk(r, u)
    {
      if u != t {
        assert TableOk(m, u);
        HeldElsewhere(m.pp, pp, m.first, t, u, m.tables[u].data);
      }
    }
    forall p | m.first <= p < |pp| && pp[p].owner.Table?
      ensures pp[p].owner.id in r.tables
    {
    }
  }

  lemma TableFacts(m: M, t: nat)
    requires Good(m) && t in m.tables
    ensures Clean(m.pp, m.first) && Shape(m.tables[t], m.first) && 0 < m.first <= |m.pp|
    ensures Held(m.pp, m.first, t, m.tables[t].data) && Backed(m.pp, m.first, t, m.tables[t].data)
  {
    assert TableOk(m, t);
  }

  lemma ShapeFacts(pt: PT, first: nat)
    requires Shape(pt, first)
    ensures 0 < first <= pt.heapBegin / PAGE <= pt.brk / PAGE <= pt.heapEnd / PAGE <= |pt.data|
    ensures pt.brk <= pt.heapEnd <= |pt.data| * PAGE && pt.heapEnd % PAGE == 0
  {
  }

  // ---------- the break ----------

  /** The pages that raising the break of table `t` would have to find. */
  function Wanted(pt: PT, newbrk: nat): nat {
    if newbrk <= pt.brk || SamePage(newbrk, pt.brk) then 0 else Missing(pt.data, pt.brk / PAGE, LastPage(newbrk))
  }

  /** A raise of the break that finds some pages, but too few. */
  predicate Spoils(m: M, t: nat, newbrk: nat)
    requires t in m.tables
  {
    InHeap(m.tables[t], newbrk) && 0 < FreeCount(m.pp, m.first) < Wanted(m.tables[t], newbrk)
  }

  ghost function AfterBrk(m: M, t: nat, newbrk: nat): M
    requires Good(m) && t in m.tables
  {
    TableFacts(m, t);
    ShapeFacts(m.tables[t], m.first);
    var o := SetBrk(m.pp, m.first, t, m.tables[t], newbrk);
    With(m, t, o.pp, o.pt)
  }

  /** The pages that are touched when the break is raised. */
  lemma RaiseRange(pt: PT, first: nat, newbrk: nat)
    requires Shape(pt, first) && pt.brk < newbrk <= pt.heapEnd
    ensures first <= pt.brk / PAGE && 0 <= LastPage(newbrk) < |pt.data|
  {
  }

  /** A raise that succeeds keeps the match. */
  lemma RaiseKeeps(m: M, t: nat, newbrk: nat)
    requires Good(m) && t in m.tables && m.tables[t].brk < newbrk <= m.tables[t].heapEnd
    ensures newbrk <= |m.tables[t].data| * PAGE && m.first <= |m.pp|
    ensures var pt := m.tables[t];
            var o := SetRange(m.pp, m.first, pt.data, pt.brk, newbrk, true, MMU_PTE_RW);
            && (o.ok ==> Good(With(m, t, Finished(o.pp, m.first, t, true), pt.(data := o.data, brk := newbrk))))
            && Finished(o.pp, m.first, t, false) == m.pp
  {
    hide *;
    TableFacts(m, t);
    var pt := m.tables[t];
    ShapeFacts(pt, m.first);
    RaiseRange(pt, m.first, newbrk);
    StageStart(m.pp, m.first, pt.data, t);
    RangeIs(m.pp, m.first, pt.data, pt.brk, newbrk);
    SetPagesStaged(m.pp, m.pp, m.first, pt.data, t, pt.brk / PAGE, LastPage(newbrk), true, Bits(MMU_PTE_RW, true));
    var o := SetRange(m.pp, m.first, pt.data, pt.brk, newbrk, true, MMU_PTE_RW);
    RollbackRestores(m.pp, o.pp, m.first, o.data, t);
    CommitSettles(m.pp, o.pp, m.first, o.data, t);
    ShapeKept(pt, m.first, o.data, newbrk);
    OneTable(m, t, Finished(o.pp, m.first, t, true), pt.(data := o.data, brk := newbrk));
  }

  lemma RangeIs(pp: seq<PPInfo>, first: nat, data: seq<nat>, vb: nat, ve: nat)
    requires first <= |pp| && vb < ve <= |data| * PAGE
    ensures LastPage(ve) < |data| && Bits(MMU_PTE_RW, true) < PAGE
    ensures SetRange(pp, first, data, vb, ve, true, MMU_PTE_RW)
            == SetPages(pp, first, data, vb / PAGE, LastPage(ve), true, Bits(MMU_PTE_RW, true))
  {
  }

  lemma ShapeKept(pt: PT, first: nat, data: seq<nat>, brk: nat)
    requires Shape(pt, first) && |data| == |pt.data| && InHeap(pt, brk)
    ensures Shape(pt.(data := data, brk := brk), first)
  {
  }

  /** A raise that fails leaves the pages as they were.  The table is unharmed exactly if no page was
      free to begin with; otherwise an entry keeps pointing to a page that was given back. */
  lemma RaiseFails(m: M, t: nat, newbrk: nat)
    requires Good(m) && t in m.tables && m.tables[t].brk < newbrk <= m.tables[t].heapEnd
    requires newbrk <= |m.tables[t].data| * PAGE && m.first <= |m.pp|
    requires !SetRange(m.pp, m.first, m.tables[t].data, m.tables[t].brk, newbrk, true, MMU_PTE_RW).ok
    ensures var pt := m.tables[t];
            var o := SetRange(m.pp, m.first, pt.data, pt.brk, newbrk, true, MMU_PTE_RW);
            Good(With(m, t, m.pp, pt.(data := o.data))) <==> NoneFree(m.pp, m.first)
  {
    hide *;
    TableFacts(m, t);
    var pt := m.tables[t];
    ShapeFacts(pt, m.first);
    RaiseRange(pt, m.first, newbrk);
    RangeIs(m.pp, m.first, pt.data, pt.brk, newbrk);
    var o := SetRange(m.pp, m.first, pt.data, pt.brk, newbrk, true, MMU_PTE_RW);
    var r := With(m, t, m.pp, pt.(data := o.data));
    SetPagesFails(m.pp, m.first, pt.data, pt.brk / PAGE, LastPage(newbrk), true, Bits(MMU_PTE_RW, true));
    if NoneFree(m.pp, m.first) {
      SamePages(m.pp, m.first, t, pt.data, o.data);
      NothingChanged(m.pp, t);
      ShapeBrk(pt, m.first);
      ShapeKept(pt, m.first, o.data, pt.brk);
      OneTable(m, t, m.pp, pt.(data := o.data));
    } else {
      var k :| pt.brk / PAGE <= k <= LastPage(newbrk) && Page(pt.data[k]) == 0 && Page(o.data[k]) != 0;
      if Good(r) {
        WithIs(m, t, m.pp, pt.(data := o.data));
        TableFacts(r, t);
        Dangling(m.pp, m.first, t, pt.data, o.data, k);
      }
    }
  }

  lemma WithIs(m: M, t: nat, pp: seq<PPInfo>, pt: PT)
    ensures var r := With(m, t, pp, pt); t in r.tables && r.tables[t] == pt && r.pp == pp && r.first == m.first
  {
  }

  lemma ShapeBrk(pt: PT, first: nat)
    requires Shape(pt, first)
    ensures InHeap(pt, pt.brk)
  {
  }

  lemma SamePages(pp: seq<PPInfo>, first: nat, t: nat, data: seq<nat>, e: seq<nat>)
    requires Held(pp, first, t, data) && Backed(pp, first, t, data) && |e| == |data|
    requires forall k :: 0 <= k < |data| ==> Page(e[k]) == Page(data[k])
    ensures Held(pp, first, t, e) && Backed(pp, first, t, e)
  {
    hide Page;
    forall p | first <= p < |pp| && pp[p].owner == Table(t)
      ensures HeldAt(e, first, pp[p].vpage, p)
    {
      assert HeldAt(data, first, pp[p].vpage, p);
    }
    forall k | first <= k < |e| && Page(e[k]) != 0
      ensures OwnedBy(pp, first, Page(e[k]), t, k)
    {
      assert Page(data[k]) == Page(e[k]);
    }
  }

  lemma Dangling(pp: seq<PPInfo>, first: nat, t: nat, data: seq<nat>, e: seq<nat>, k: nat)
    requires Backed(pp, first, t, data) && first <= k < |data| == |e| && Page(data[k]) == 0 && Page(e[k]) != 0
    ensures !Held(pp, first, t, e)
  {
    hide Page;
    assert OwnedBy(pp, first, Page(e[k]), t, k) ==> HeldAt(data, first, k, Page(e[k]));
  }

  /** Lowering the break keeps the match. */
  lemma LowerKeeps(m: M, t: nat, newbrk: nat)
    requires Good(m) && t in m.tables && m.tables[t].heapBegin <= newbrk < m.tables[t].brk
    ensures PageUp(m.tables[t].brk) / PAGE <= |m.tables[t].data|
    ensures var pt := m.tables[t];
            var o := FreePages(m.pp, pt.data, PageUp(newbrk) / PAGE, PageUp(pt.brk) / PAGE);
            && Finished(o.pp, m.first, t, true) == o.pp
            && Good(With(m, t, o.pp, pt.(data := o.data, brk := newbrk)))
  {
    hide *;
    TableFacts(m, t);
    var pt := m.tables[t];
    LowerRange(pt, m.first, newbrk);
    FreePagesKeep(m.pp, m.first, pt.data, t, PageUp(newbrk) / PAGE, PageUp(pt.brk) / PAGE);
    var o := FreePages(m.pp, pt.data, PageUp(newbrk) / PAGE, PageUp(pt.brk) / PAGE);
    NoTagLeft(o.pp, m.first, t);
    ShapeKept(pt, m.first, o.data, newbrk);
    OneTable(m, t, o.pp, pt.(data := o.data, brk := newbrk));
  }

  lemma LowerRange(pt: PT, first: nat, newbrk: nat)
    requires Shape(pt, first) && pt.heapBegin <= newbrk < pt.brk
    ensures first <= PageUp(newbrk) / PAGE && PageUp(pt.brk) / PAGE <= |pt.data| && InHeap(pt, newbrk)
  {
  }

  lemma NoTagLeft(pp: seq<PPInfo>, first: nat, t: nat)
    requires Clean(pp, first)
    ensures Finished(pp, first, t, true) == pp
  {
    var r := Finished(pp, first, t, true);
    forall p: nat | p < |pp|
      ensures r[p] == pp[p]
    {
    }
  }

  /** Moving the break inside its page changes nothing else. */
  lemma SamePageKeeps(m: M, t: nat, newbrk: nat)
    requires Good(m) && t in m.tables && InHeap(m.tables[t], newbrk)
    ensures Good(With(m, t, m.pp, m.tables[t].(brk := newbrk)))
  {
    hide *;
    TableFacts(m, t);
    var pt := m.tables[t];
    NothingChanged(m.pp, t);
    ShapeKept(pt, m.first, pt.data, newbrk);
    OneTable(m, t, m.pp, pt.(brk := newbrk));
  }

  lemma AsItWas(m: M, t: nat)
    requires Good(m) && t in m.tables
    ensures Good(With(m, t, m.pp, m.tables[t]))
  {
    assert m.tables[t := m.tables[t]] == m.tables;
  }

  lemma BrkCases(m: M, t: nat, newbrk: nat)
    requires Good(m) && t in m.tables
    ensures var pt, r := m.tables[t], AfterBrk(m, t, newbrk);
            && m.first <= |m.pp| && pt.brk <= pt.heapEnd <= |pt.data| * PAGE && pt.heapEnd % PAGE == 0
            && PageUp(pt.brk) / PAGE <= |pt.data|
            && var o := SetBrk(m.pp, m.first, t, pt, newbrk);
            if !InHeap(pt, newbrk) then !o.ok && r == With(m, t, m.pp, pt) && o.pp == m.pp
            else if SamePage(newbrk, pt.brk) then o.ok && r == With(m, t, m.pp, pt.(brk := newbrk)) && o.pp == m.pp
            else if newbrk > pt.brk then
              var s := SetRange(m.pp, m.first, pt.data, pt.brk, newbrk, true, MMU_PTE_RW);
              && o.ok == s.ok && o.pp == Finished(s.pp, m.first, t, s.ok)
              && r == With(m, t, o.pp, pt.(data := s.data, brk := if s.ok then newbrk else pt.brk))
            else
              var f := FreePages(m.pp, pt.data, PageUp(newbrk) / PAGE, PageUp(pt.brk) / PAGE);
              o.ok && newbrk < pt.brk && r == With(m, t, Finished(f.pp, m.first, t, true), pt.(data := f.data, brk := newbrk))
  {
    TableFacts(m, t);
    ShapeFacts(m.tables[t], m.first);
  }

  /** Setting a break is granted exactly if it stays in the heap and there are as many free pages as it
      wants.  It keeps the match of pages and entries exactly if there are that many or none at all; a
      refusal leaves all pages as they were. */
  lemma SetBrkKeeps(m: M, t: nat, newbrk: nat)
    requires Good(m) && t in m.tables
    ensures m.first <= |m.pp| && m.tables[t].brk <= m.tables[t].heapEnd <= |m.tables[t].data| * PAGE
    ensures m.tables[t].heapEnd % PAGE == 0
    ensures Good(AfterBrk(m, t, newbrk)) <==> !Spoils(m, t, newbrk)
    ensures var o := SetBrk(m.pp, m.first, t, m.tables[t], newbrk);
            && (!o.ok ==> AfterBrk(m, t, newbrk).pp == m.pp && o.pt.brk == m.tables[t].brk)
            && (o.ok ==> o.pt.brk == newbrk)
            && (o.ok <==> InHeap(m.tables[t], newbrk) && Wanted(m.tables[t], newbrk) <= FreeCount(m.pp, m.first))
  {
    hide *;
    BrkCases(m, t, newbrk);
    var pt := m.tables[t];
    SpoilsIs(m, t, newbrk);
    WantedIs(pt, newbrk);
    TableFacts(m, t);
    InHeapIs(pt, newbrk);
    ShapeInHeap(pt, m.first);
    if !InHeap(pt, newbrk) {
      AsItWas(m, t);
    } else if SamePage(newbrk, pt.brk) {
      SamePageKeeps(m, t, newbrk);
    } else if newbrk > pt.brk {
      RaiseKeeps(m, t, newbrk);
      RaiseOk(m, t, newbrk);
      if !SetRange(m.pp, m.first, pt.data, pt.brk, newbrk, true, MMU_PTE_RW).ok {
        RaiseFails(m, t, newbrk);
      }
    } else {
      LowerKeeps(m, t, newbrk);
    }
    BrkOutIs(m, t, newbrk);
  }

  lemma BrkOutIs(m: M, t: nat, newbrk: nat)
    requires Good(m) && t in m.tables
    requires m.first <= |m.pp| && m.tables[t].brk <= m.tables[t].heapEnd <= |m.tables[t].data| * PAGE
    requires m.tables[t].heapEnd % PAGE == 0
    ensures var o, r := SetBrk(m.pp, m.first, t, m.tables[t], newbrk), AfterBrk(m, t, newbrk);
            && r.pp == o.pp && r.tables == m.tables[t := o.pt] && r.first == m.first
            && (o.ok ==> o.pt.brk == newbrk) && (!o.ok ==> o.pt.brk == m.tables[t].brk)
  {
  }

  lemma SpoilsIs(m: M, t: nat, newbrk: nat)
    requires t in m.tables
    ensures Spoils(m, t, newbrk) <==>
            InHeap(m.tables[t], newbrk) && 0 < FreeCount(m.pp, m.first) < Wanted(m.tables[t], newbrk)
  {
  }

  lemma WantedIs(pt: PT, newbrk: nat)
    ensures Wanted(pt, newbrk) == if newbrk <= pt.brk || SamePage(newbrk, pt.brk) then 0 else Missing(pt.data, pt.brk / PAGE, LastPage(newbrk))
  {
  }

  /** A raise out of its page succeeds exactly if there are enough pages. */
  lemma RaiseOk(m: M, t: nat, newbrk: nat)
    requires Good(m) && t in m.tables && m.tables[t].brk < newbrk <= m.tables[t].heapEnd
    requires newbrk <= |m.tables[t].data| * PAGE && m.first <= |m.pp|
    ensures SetRange(m.pp, m.first, m.tables[t].data, m.tables[t].brk, newbrk, true, MMU_PTE_RW).ok <==>
            Missing(m.tables[t].data, m.tables[t].brk / PAGE, LastPage(newbrk)) <= FreeCount(m.pp, m.first)
    ensures NoneFree(m.pp, m.first) <==> FreeCount(m.pp, m.first) == 0
  {
    hide *;
    TableFacts(m, t);
    var pt := m.tables[t];
    ShapeFacts(pt, m.first);
    RangeIs(m.pp, m.first, pt.data, pt.brk, newbrk);
    SetPagesOk(m.pp, m.first, pt.data, pt.brk / PAGE, LastPage(newbrk), Bits(MMU_PTE_RW, true));
    NoneCounts(m.pp, m.first);
  }

  lemma NoneCounts(pp: seq<PPInfo>, first: nat)
    requires first <= |pp|
    ensures NoneFree(pp, first) <==> FreeCount(pp, first) == 0
  {
    FirstCounts(pp, first, PPInfo(Tag, 0));
  }

  lemma InHeapIs(pt: PT, a: nat)
    ensures InHeap(pt, a) <==> pt.heapBegin <= a <= pt.heapEnd
  {
  }

  lemma ShapeInHeap(pt: PT, first: nat)
    requires Shape(pt, first)
    ensures pt.heapBegin <= pt.brk <= pt.heapEnd
  {
  }

  // ---------- what the heap can use ----------

  /** Moving the break up inside its page maps nothing: a page that starts exactly at the break stays
      without memory, unless an earlier lowering left it some. */
  predicate Unbacked(pt: PT, newbrk: nat) {
    && SamePage(newbrk, pt.brk) && pt.brk < newbrk && pt.brk % PAGE == 0
    && pt.brk / PAGE < |pt.data| && Page(pt.data[pt.brk / PAGE]) == 0
  }

  lemma RaisedMapped(pt: PT, first: nat, newbrk: nat, pp: seq<PPInfo>)
    requires Shape(pt, first) && Mapped(pt) && pt.brk < newbrk <= pt.heapEnd && first <= |pp|
    requires newbrk <= |pt.data| * PAGE
    ensures var o := SetRange(pp, first, pt.data, pt.brk, newbrk, true, MMU_PTE_RW);
            && (o.ok ==> Mapped(pt.(data := o.data, brk := newbrk)))
            && Mapped(pt.(data := o.data))
  {
    hide SetRange, Page, Bits;
    RangeIs(pp, first, pt.data, pt.brk, newbrk);
    SetPagesData(pp, first, pt.data, pt.brk / PAGE, LastPage(newbrk), true, Bits(MMU_PTE_RW, true));
    var o := SetRange(pp, first, pt.data, pt.brk, newbrk, true, MMU_PTE_RW);
    if o.ok {
      SetPagesMaps(pp, first, pt.data, pt.brk / PAGE, LastPage(newbrk), Bits(MMU_PTE_RW, true));
    }
    forall k | 0 <= k < |o.data| && pt.heapBegin <= k * PAGE < newbrk && (k * PAGE < pt.brk || o.ok)
      ensures Page(o.data[k]) != 0
    {
      assert k * PAGE < pt.brk ==> Page(pt.data[k]) != 0;
      assert k * PAGE >= pt.brk ==> pt.brk / PAGE <= k <= LastPage(newbrk);
    }
  }

  lemma SamePageMapped(pt: PT, first: nat, newbrk: nat)
    requires Shape(pt, first) && Mapped(pt) && InHeap(pt, newbrk) && SamePage(newbrk, pt.brk)
    ensures Mapped(pt.(brk := newbrk)) <==> !Unbacked(pt, newbrk)
  {
    hide Page;
    var q := pt.brk / PAGE;
    forall k | 0 <= k < |pt.data| && pt.heapBegin <= k * PAGE < newbrk && (k * PAGE < pt.brk || !Unbacked(pt, newbrk))
      ensures Page(pt.data[k]) != 0
    {
      assert k * PAGE >= pt.brk ==> k == q && pt.brk == k * PAGE;
    }
    assert Unbacked(pt, newbrk) ==> pt.(brk := newbrk).data[q] == pt.data[q] && q * PAGE == pt.brk < newbrk;
  }

  lemma LoweredMapped(pt: PT, first: nat, newbrk: nat, data: seq<nat>)
    requires Shape(pt, first) && Mapped(pt) && pt.heapBegin <= newbrk < pt.brk && |data| == |pt.data|
    requires forall k :: 0 <= k < |data| && k < PageUp(newbrk) / PAGE ==> data[k] == pt.data[k]
    ensures Mapped(pt.(data := data, brk := newbrk))
  {
    hide Page;
    forall k | 0 <= k < |data| && pt.heapBegin <= k * PAGE < newbrk
      ensures Page(data[k]) != 0
    {
      assert k < PageUp(newbrk) / PAGE && data[k] == pt.data[k];
    }
  }

  /** Whether every byte below the new break has memory: always after a refusal, and after success
      exactly if the break did not leave a page boundary inside its page. */
  lemma SetBrkMapped(m: M, t: nat, newbrk: nat)
    requires Good(m) && t in m.tables && Mapped(m.tables[t])
    ensures m.first <= |m.pp| && m.tables[t].brk <= m.tables[t].heapEnd <= |m.tables[t].data| * PAGE
    ensures m.tables[t].heapEnd % PAGE == 0
    ensures var o := SetBrk(m.pp, m.first, t, m.tables[t], newbrk);
            Mapped(o.pt) <==> !(o.ok && Unbacked(m.tables[t], newbrk))
  {
    hide *;
    BrkCases(m, t, newbrk);
    BrkOutIs(m, t, newbrk);
    TableFacts(m, t);
    var pt := m.tables[t];
    InHeapIs(pt, newbrk);
    ShapeInHeap(pt, m.first);
    WithTwice(m, t, newbrk);
    UnbackedIs(pt, newbrk);
    if SamePage(newbrk, pt.brk) && InHeap(pt, newbrk) {
      SamePageMapped(pt, m.first, newbrk);
    } else if InHeap(pt, newbrk) && newbrk > pt.brk {
      RaisedMapped(pt, m.first, newbrk, m.pp);
    } else if InHeap(pt, newbrk) {
      LowerRange(pt, m.first, newbrk);
      FreePagesKeep(m.pp, m.first, pt.data, t, PageUp(newbrk) / PAGE, PageUp(pt.brk) / PAGE);
      LoweredMapped(pt, m.first, newbrk, FreePages(m.pp, pt.data, PageUp(newbrk) / PAGE, PageUp(pt.brk) / PAGE).data);
    }
  }

  lemma UnbackedIs(pt: PT, newbrk: nat)
    ensures Unbacked(pt, newbrk) ==> SamePage(newbrk, pt.brk)
  {
  }

  lemma WithTwice(m: M, t: nat, newbrk: nat)
    requires Good(m) && t in m.tables
    requires m.first <= |m.pp| && m.tables[t].brk <= m.tables[t].heapEnd <= |m.tables[t].data| * PAGE
    requires m.tables[t].heapEnd % PAGE == 0
    ensures forall pp, pt :: AfterBrk(m, t, newbrk) == With(m, t, pp, pt) ==> pt == SetBrk(m.pp, m.first, t, m.tables[t], newbrk).pt
  {
    var o := SetBrk(m.pp, m.first, t, m.tables[t], newbrk);
    forall pp, pt | AfterBrk(m, t, newbrk) == With(m, t, pp, pt)
      ensures pt == o.pt
    {
      assert With(m, t, pp, pt).tables[t] == With(m, t, o.pp, o.pt).tables[t];
    }
  }

  // ---------- destroying a table ----------

  function AfterDestroy(m: M, t: nat): M {
    M(Released(m.pp, m.first, t), m.first, m.tables - {t})
  }

  /** Destroying a table frees exactly its pages; nothing else changes. */
  lemma DestroyKeeps(m: M, t: nat)
    requires Good(m) && t in m.tables
    ensures var r := AfterDestroy(m, t);
            && Good(r) && r.first == m.first && |r.pp| == |m.pp|
            && (forall p :: 0 <= p < |m.pp| ==> (r.pp[p] == FREE <==> m.pp[p] == FREE || m.pp[p].owner == Table(t)))
            && (forall p :: 0 <= p < |m.pp| && m.pp[p].owner != Table(t) ==> r.pp[p] == m.pp[p])
  {
    hide Held, Backed, Shape, Page;
    var r := AfterDestroy(m, t);
    TableFacts(m, t);
    assert forall p :: 0 <= p < m.first ==> m.pp[p].owner == Kernel;
    forall u | u in r.tables
      ensures TableOk(r, u)
    {
      assert TableOk(m, u);
      ReleasedElsewhere(m.pp, r.pp, m.first, t, u, m.tables[u].data);
    }
  }

  lemma ReleasedElsewhere(pp: seq<PPInfo>, qq: seq<PPInfo>, first: nat, t: nat, u: nat, data: seq<nat>)
    requires qq == Released(pp, first, t) && t != u && Held(pp, first, u, data) && Backed(pp, first, u, data)
    ensures Held(qq, first, u, data) && Backed(qq, first, u, data)
  {
    hide Page;
    forall k | first <= k < |data| && Page(data[k]) != 0
      ensures OwnedBy(qq, first, Page(data[k]), u, k)
    {
      assert OwnedBy(pp, first, Page(data[k]), u, k);
    }
    forall p | first <= p < |qq| && qq[p].owner == Table(u)
      ensures HeldAt(data, first, qq[p].vpage, p)
    {
      assert pp[p] == qq[p];
    }
  }
}
