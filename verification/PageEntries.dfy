/** What moving the break does to the entries of a page table, and which rights they give. */
module PageEntries {
  import opened PageState
  import opened PageBreaks
  import opened PageTables

  // ---------- single entries ----------

  /** Entry `r` is `w` without its page and without its keys, the low seven bits. */
  ghost predicate Cleared(w: nat, r: nat) {
    r / 4096 == 0 && r % 128 == 0 && r / 128 == w % 4096 / 128
  }

  /** Entry `r` has a page, that of `w` if it had one, can be read and written, and has the user's key. */
  ghost predicate Given(w: nat, r: nat) {
    r / 4096 != 0 && r % 4096 == 0xC02 && (w / 4096 != 0 ==> r / 4096 == w / 4096)
  }

  lemma EmptiedClears(w: nat)
    ensures Cleared(w, Emptied(w))
  {
  }

  // ---------- moving the break ----------

  /** What a move of the break from `brk` to `newbrk` that was answered with `ok` does to the entries: inside a page
      nothing; a lower break clears those of the pages behind it that have a page; a higher one gives a page to each in
      between, or, without success, to some of them. */
  ghost predicate Moves(d: seq<nat>, e: seq<nat>, brk: nat, newbrk: nat, ok: bool) {
    && |e| == |d|
    && forall k :: 0 <= k < |d| ==> MovesAt(k, d[k], e[k], brk, newbrk, ok)
  }

  ghost predicate MovesAt(k: nat, w: nat, r: nat, brk: nat, newbrk: nat, ok: bool) {
    if newbrk / 4096 == brk / 4096 then r == w
    else if newbrk < brk then
      if newbrk <= k * 4096 < brk && w / 4096 != 0 then Cleared(w, r) else r == w
    else if brk / 4096 <= k && k * 4096 < newbrk then Given(w, r) || (!ok && r == w)
    else r == w
  }

  lemma {:induction false} FreePagesEntries(pp: seq<PPInfo>, data: seq<nat>, i: nat, end: nat)
    requires end <= |data| && forall k :: i <= k < end ==> Page(data[k]) < |pp|
    ensures var e := FreePages(pp, data, i, end).data;
            forall k :: 0 <= k < |data| ==> if i <= k < end && Page(data[k]) != 0 then Cleared(data[k], e[k]) else e[k] == data[k]
    decreases end - i
  {
    hide Cleared, Emptied, Page;
    if i < end {
      EmptiedClears(data[i]);
      NoPage(data[i]);
      var p := Page(data[i]);
      if 0 < p < |pp| {
        FreePagesEntries(pp[p := FREE], data[i := Emptied(data[i])], i + 1, end);
      } else {
        FreePagesEntries(pp, data, i + 1, end);
      }
    }
  }

  /** Page `p` is behind one of these entries. */
  ghost predicate Behind(data: seq<nat>, i: nat, end: nat, p: nat) {
    exists k :: i <= k < end && k < |data| && data[k] / 4096 == p
  }

  /** Just the pages behind the entries are free now. */
  lemma {:induction false} FreePagesFrees(pp: seq<PPInfo>, data: seq<nat>, i: nat, end: nat)
    requires end <= |data| && forall k :: i <= k < end ==> Page(data[k]) < |pp|
    ensures var o := FreePages(pp, data, i, end);
            forall p :: 0 <= p < |pp| ==> o.pp[p] == if p != 0 && Behind(data, i, end, p) then FREE else pp[p]
    decreases end - i
  {
    hide Emptied;
    if i < end {
      var p, e := Page(data[i]), data[i := Emptied(data[i])];
      var qq := if p > 0 then pp[p := FREE] else pp;
      FreePagesFrees(qq, if p > 0 then e else data, i + 1, end);
      forall q: nat | q < |pp|
        ensures Behind(data, i, end, q) <==> data[i] / 4096 == q || Behind(data, i + 1, end, q)
        ensures Behind(e, i + 1, end, q) <==> Behind(data, i + 1, end, q)
      {
        if Behind(data, i + 1, end, q) {
          var k :| i + 1 <= k < end && k < |data| && data[k] / 4096 == q;
          assert e[k] == data[k];
        }
        if Behind(e, i + 1, end, q) {
          var k :| i + 1 <= k < end && k < |e| && e[k] / 4096 == q;
          assert e[k] == data[k];
        }
      }
    }
  }

  lemma NoPage(w: nat)
    ensures Page(Emptied(w)) == 0
  {
  }

  lemma EntryGives(w: nat, p: nat)
    requires p > 0 && (w / 4096 != 0 ==> p == w / 4096)
    ensures Given(w, Entry(p, Bits(MMU_PTE_RW, true)))
  {
    assert Bits(MMU_PTE_RW, true) == 0xC02;
  }

  lemma {:induction false} SetPagesEntries(pp: seq<PPInfo>, first: nat, data: seq<nat>, i: nat, last: int)
    requires 0 < first <= |pp| && last < |data|
    ensures var o := SetPages(pp, first, data, i, last, true, Bits(MMU_PTE_RW, true));
            forall k :: 0 <= k < |data| ==>
              if i <= k <= last then Given(data[k], o.data[k]) || (!o.ok && o.data[k] == data[k]) else o.data[k] == data[k]
    decreases last + 1 - i
  {
    hide Given, Entry, Bits;
    var bits := Bits(MMU_PTE_RW, true);
    if i <= last {
      if Page(data[i]) == 0 {
        var q := FirstFree(pp, first);
        if q < |pp| {
          EntryGives(data[i], q);
          SetPagesEntries(pp[q := PPInfo(Tag, i)], first, data[i := Entry(q, bits)], i + 1, last);
        }
      } else {
        EntryGives(data[i], Page(data[i]));
        SetPagesEntries(pp, first, data[i := Entry(Page(data[i]), bits)], i + 1, last);
      }
    }
  }

  lemma Boundary(a: nat, k: nat)
    ensures PageUp(a) / PAGE <= k <==> a <= k * 4096
    ensures a > 0 ==> (k <= LastPage(a) <==> k * 4096 < a)
  {
  }

  lemma LowerMoves(pp: seq<PPInfo>, data: seq<nat>, brk: nat, newbrk: nat)
    requires newbrk < brk <= |data| * PAGE && newbrk / PAGE != brk / PAGE && PageUp(brk) / PAGE <= |data|
    requires forall k :: PageUp(newbrk) / PAGE <= k < |data| ==> Page(data[k]) < |pp|
    ensures Moves(data, FreePages(pp, data, PageUp(newbrk) / PAGE, PageUp(brk) / PAGE).data, brk, newbrk, true)
  {
    hide Cleared, PageUp, FreePages;
    var i, end := PageUp(newbrk) / PAGE, PageUp(brk) / PAGE;
    FreePagesEntries(pp, data, i, end);
    var e := FreePages(pp, data, i, end).data;
    forall k | 0 <= k < |data|
      ensures MovesAt(k, data[k], e[k], brk, newbrk, true)
    {
      Boundary(newbrk, k);
      Boundary(brk, k);
    }
  }

  lemma RaiseMoves(pp: seq<PPInfo>, first: nat, data: seq<nat>, brk: nat, newbrk: nat)
    requires brk < newbrk <= |data| * PAGE && newbrk / PAGE != brk / PAGE && 0 < first <= |pp|
    ensures var o := SetRange(pp, first, data, brk, newbrk, true, MMU_PTE_RW); Moves(data, o.data, brk, newbrk, o.ok)
  {
    hide Given, SetPages, Bits;
    SetPagesEntries(pp, first, data, brk / PAGE, LastPage(newbrk));
    var o := SetRange(pp, first, data, brk, newbrk, true, MMU_PTE_RW);
    forall k | 0 <= k < |data|
      ensures MovesAt(k, data[k], o.data[k], brk, newbrk, o.ok)
    {
      Boundary(newbrk, k);
    }
  }

  /** A break that is set: which entries change, and how. */
  lemma SetBrkMoves(pp: seq<PPInfo>, first: nat, t: nat, pt: PT, newbrk: nat)
    requires 0 < first <= |pp| && Shape(pt, first) && forall k :: first <= k < |pt.data| ==> Page(pt.data[k]) < |pp|
    ensures var o := PageState.SetBrk(pp, first, t, pt, newbrk);
            && (if pt.heapBegin <= newbrk <= pt.heapEnd then Moves(pt.data, o.pt.data, pt.brk, newbrk, o.ok) else o.pt.data == pt.data && !o.ok)
            && o.pt == pt.(data := o.pt.data, brk := if o.ok then newbrk else pt.brk)
  {
    hide Page, SetRange, FreePages, Finished;
    if pt.heapBegin <= newbrk <= pt.heapEnd {
      if newbrk / PAGE == pt.brk / PAGE {
      } else if newbrk < pt.brk {
        LowerMoves(pp, pt.data, pt.brk, newbrk);
      } else {
        RaiseMoves(pp, first, pt.data, pt.brk, newbrk);
      }
    }
  }

  // ---------- rights ----------

  /** An entry with a page can be read and written by the user; one without a page gives no access to anything. */
  ghost predicate RightsOf(w: nat) {
    if w / 4096 != 0 then w % 4096 == 0xC02 else w == 0 || w == 0xC00
  }

  ghost predicate Rights(data: seq<nat>, first: nat) {
    forall k :: first <= k < |data| ==> RightsOf(data[k])
  }

  lemma ClearedRights(w: nat, r: nat)
    requires RightsOf(w) && w / 4096 != 0 && Cleared(w, r)
    ensures RightsOf(r)
  {
  }

  lemma MovesRights(d: seq<nat>, e: seq<nat>, first: nat, brk: nat, newbrk: nat, ok: bool)
    requires Moves(d, e, brk, newbrk, ok) && Rights(d, first)
    ensures Rights(e, first)
  {
    hide Cleared, RightsOf;
    forall k | first <= k < |e|
      ensures RightsOf(e[k])
    {
      assert MovesAt(k, d[k], e[k], brk, newbrk, ok);
      if d[k] / 4096 != 0 && Cleared(d[k], e[k]) {
        ClearedRights(d[k], e[k]);
      } else if Given(d[k], e[k]) {
        GivenRights(d[k], e[k]);
      }
    }
  }

  lemma GivenRights(w: nat, r: nat)
    requires Given(w, r)
    ensures RightsOf(r)
  {
  }

  /** Entries that are set without pages. */
  lemma {:induction false} UnmappedEntries(pp: seq<PPInfo>, first: nat, data: seq<nat>, i: nat, last: int)
    requires first <= |pp| && last < |data| && forall k :: i <= k <= last ==> data[k] == 0
    ensures var e := SetPages(pp, first, data, i, last, false, Bits(MMU_PTE_RW, false)).data;
            forall k :: 0 <= k < |data| ==> e[k] == if i <= k <= last then 0xC00 else data[k]
    decreases last + 1 - i
  {
    assert Bits(MMU_PTE_RW, false) == 0xC00;
    if i <= last {
      assert Entry(Page(data[i]), 0xC00) == 0xC00;
      UnmappedEntries(pp, first, data[i := 0xC00], i + 1, last);
    }
  }

  /** What a range gets, with pages or without. */
  lemma RangeEntries(pp: seq<PPInfo>, first: nat, data: seq<nat>, vb: nat, ve: nat, alloc: bool)
    requires 0 < first <= |pp| && first <= vb / PAGE && vb % PAGE == 0 && vb <= ve <= |data| * PAGE && Rights(data, first)
    requires !alloc ==> forall k :: vb / PAGE <= k < |data| ==> data[k] == 0
    ensures var e := SetRange(pp, first, data, vb, ve, alloc, MMU_PTE_RW).data;
            && Rights(e, first) && (forall k :: 0 <= k < |data| && (k < vb / PAGE || k * 4096 >= ve) ==> e[k] == data[k])
  {
    hide SetPages, Given, Bits, RightsOf;
    if vb < ve {
      Boundaries(ve);
      if alloc {
        SetPagesEntries(pp, first, data, vb / PAGE, LastPage(ve));
        var o := SetRange(pp, first, data, vb, ve, true, MMU_PTE_RW);
        forall k | first <= k < |data|
          ensures RightsOf(o.data[k])
        {
          if Given(data[k], o.data[k]) {
            GivenRights(data[k], o.data[k]);
          }
        }
      } else {
        UnmappedEntries(pp, first, data, vb / PAGE, LastPage(ve));
        NoAccess();
        var e := SetRange(pp, first, data, vb, ve, false, MMU_PTE_RW).data;
        forall k | first <= k < |data|
          ensures RightsOf(e[k])
        {
          assert e[k] == 0xC00 || e[k] == data[k];
        }
      }
    }
  }

  lemma Boundaries(a: nat)
    requires a > 0
    ensures forall k: nat :: k <= LastPage(a) <==> k * 4096 < a
  {
  }

  lemma NoAccess()
    ensures RightsOf(0xC00) && RightsOf(0)
  {
  }

  /** A new table gives just these rights, and none to the page in front of its stack. */
  lemma CreateRights(pp: seq<PPInfo>, t: nat, kernel: seq<nat>, l: Layout)
    requires 0 < |kernel| <= |pp| && Sensible(l, |kernel|) && Create(pp, t, kernel, l).Created?
    ensures var d := Create(pp, t, kernel, l).pt.data;
            Rights(d, |kernel|) && forall k :: 0 <= k < |d| && l.heapEnd <= k * 4096 < l.stackBegin ==> d[k] == 0
  {
    hide SetRange, RightsOf, Finished, Rights;
    var first, d := |kernel|, Blank(kernel, l);
    BlankRights(kernel, l);
    RangeEntries(pp, first, d, l.heapBegin, l.heapEnd, false);
    var a := SetRange(pp, first, d, l.heapBegin, l.heapEnd, false, MMU_PTE_RW);
    if l.heapEnd != l.heapBegin {
      RangeEntries(a.pp, first, a.data, l.heapBegin, l.heapBegin + 1, true);
    }
    var h := HeapPart(pp, first, d, l);
    assert forall k :: 0 <= k < |d| && k * 4096 >= l.heapEnd ==> h.data[k] == d[k];
    Higher(l.heapEnd, l.stackBegin, |d|);
    RangeEntries(h.pp, first, h.data, l.stackBegin, l.sharedEnd, false);
    var s := SetRange(h.pp, first, h.data, l.stackBegin, l.sharedEnd, false, MMU_PTE_RW);
    StackTop(l);
    RangeEntries(s.pp, first, s.data, StackMapped(l), l.sharedEnd, true);
  }

  lemma Higher(a: nat, b: nat, n: nat)
    requires a <= b && b % PAGE == 0
    ensures forall k :: b / PAGE <= k < n ==> k * 4096 >= a
    ensures forall k :: 0 <= k < n && k * 4096 < b ==> k < b / PAGE
  {
  }

  lemma StackTop(l: Layout)
    requires l.stackBegin < l.stackEnd <= l.sharedEnd && l.stackBegin % PAGE == 0
    ensures l.stackBegin <= StackMapped(l) < l.sharedEnd && StackMapped(l) % PAGE == 0 && StackMapped(l) / PAGE >= l.stackBegin / PAGE
  {
  }

  lemma BlankRights(kernel: seq<nat>, l: Layout)
    requires Sensible(l, |kernel|)
    ensures var d := Blank(kernel, l); Rights(d, |kernel|) && (forall k :: |kernel| <= k < |d| ==> d[k] == 0) && |d| * PAGE == l.sharedEnd
  {
  }
}
