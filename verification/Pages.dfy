/** The memory management unit's page information and page tables, updated in place. */
module Pages {
  import opened PageState
  import opened PageTables
  import opened PageEntries

  datatype Maybe = NoTable | Some(id: nat)

  /** A page table.  `id` stands for its address, which is what a page's owner field holds. */
  class PageTable {
    const id: nat
    const data: array<nat>
    const heapBegin: nat
    const heapEnd: nat
    var brk: nat

    constructor (id: nat, kernel: seq<nat>, l: Layout)
      requires Sensible(l, |kernel|)
      ensures fresh(data) && this.id == id && data[..] == Blank(kernel, l)
      ensures heapBegin == brk == l.heapBegin && heapEnd == l.heapEnd
    {
      this.id, heapBegin, heapEnd, brk := id, l.heapBegin, l.heapEnd, l.heapBegin;
      var words := Blank(kernel, l);
      data := new nat[|words|](i requires 0 <= i < |words| => words[i]);
    }

    ghost function Value(): PT
      reads this, data
    {
      PT(data[..], heapBegin, heapEnd, brk)
    }
  }

  class Mmu {
    const ppinfo: array<PPInfo>
    const first: nat
    var trans: Maybe

    constructor (ppinfo: array<PPInfo>, first: nat)
      requires 0 < first <= ppinfo.Length
      ensures this.ppinfo == ppinfo && this.first == first && trans == NoTable
    {
      this.ppinfo, this.first, trans := ppinfo, first, NoTable;
    }

    ghost predicate Valid()
    {
      0 < first <= ppinfo.Length
    }

    method BeginTransaction(pt: PageTable)
      requires trans == NoTable
      modifies this`trans
      ensures trans == Some(pt.id)
    {
      trans := Some(pt.id);
    }

    /** Take the first free page for virtual page `vpage`; 0 if there is none. */
    method PpAlloc(vpage: nat) returns (p: nat)
      requires Valid() && trans.Some?
      modifies ppinfo
      ensures var q := FirstFree(old(ppinfo[..]), first);
              if q == ppinfo.Length then p == 0 && ppinfo[..] == old(ppinfo[..])
              else p == q > 0 && ppinfo[..] == old(ppinfo[..])[q := PPInfo(Tag, vpage)]
    {
      ghost var pp := ppinfo[..];
      var i := first;
      while i < ppinfo.Length
        invariant first <= i <= ppinfo.Length && ppinfo[..] == pp && FirstFree(pp, first) == FirstFree(pp, i)
      {
        if ppinfo[i].owner == Nobody {
          ppinfo[i] := PPInfo(Tag, vpage);
          return i;
        }
        i := i + 1;
      }
      p := 0;
    }

    /** End the transaction: give the tagged pages to its table, or free them. */
    method FinishTransaction(commit: bool)
      requires Valid() && trans.Some?
      modifies this`trans, ppinfo
      ensures trans == NoTable && ppinfo[..] == Finished(old(ppinfo[..]), first, old(trans).id, commit)
    {
      ghost var r := Finished(ppinfo[..], first, trans.id, commit);
      var i := first;
      while i < ppinfo.Length
        invariant first <= i <= ppinfo.Length && trans == old(trans)
        invariant forall p :: 0 <= p < i ==> ppinfo[p] == r[p]
        invariant forall p :: i <= p < ppinfo.Length ==> ppinfo[p] == old(ppinfo[p])
      {
        if ppinfo[i].owner == Tag {
          if commit {
            ppinfo[i] := ppinfo[i].(owner := Table(trans.id));
          } else {
            ppinfo[i] := PPInfo(Nobody, 0);
          }
        }
        i := i + 1;
      }
      trans := NoTable;
    }

    /** Release all pages of a table, and say how many there were. */
    method FreeTablePages(pt: PageTable) returns (count: nat)
      requires Valid()
      modifies ppinfo
      ensures ppinfo[..] == Released(old(ppinfo[..]), first, pt.id)
      ensures count == Owned(old(ppinfo[..]), first, pt.id, ppinfo.Length)
    {
      ghost var pp := ppinfo[..];
      ghost var r := Released(pp, first, pt.id);
      count := 0;
      var i := first;
      while i < ppinfo.Length
        invariant first <= i <= ppinfo.Length && count == Owned(pp, first, pt.id, i)
        invariant forall p :: 0 <= p < i ==> ppinfo[p] == r[p]
        invariant forall p :: i <= p < ppinfo.Length ==> ppinfo[p] == pp[p]
      {
        if ppinfo[i].owner == Table(pt.id) {
          ppinfo[i] := PPInfo(Nobody, 0);
          count := count + 1;
        }
        i := i + 1;
      }
    }

    /** Free the pages behind a range of addresses. */
    method FreePageRange(pt: PageTable, vbegin: nat, vend: nat)
      requires Valid() && vbegin <= vend <= pt.data.Length * PAGE && vbegin % PAGE == 0 && vend % PAGE == 0
      requires forall k :: 0 <= k < pt.data.Length ==> Page(pt.data[k]) < ppinfo.Length
      modifies ppinfo, pt.data
      ensures var o := FreePages(old(ppinfo[..]), old(pt.data[..]), vbegin / PAGE, vend / PAGE);
              ppinfo[..] == o.pp && pt.data[..] == o.data
      ensures forall k :: 0 <= k < pt.data.Length ==>
                if vbegin <= k * 4096 < vend && old(pt.data[k]) / 4096 != 0 then Cleared(old(pt.data[k]), pt.data[k])
                else pt.data[k] == old(pt.data[k])
      ensures forall p :: 0 <= p < ppinfo.Length ==>
                ppinfo[p] == if p != 0 && Behind(old(pt.data[..]), vbegin / PAGE, vend / PAGE, p) then FREE else old(ppinfo[p])
    {
      ghost var pp, data := ppinfo[..], pt.data[..];
      hide Cleared, Behind;
      FreePagesEntries(pp, data, vbegin / PAGE, vend / PAGE);
      FreePagesFrees(pp, data, vbegin / PAGE, vend / PAGE);
      if vend == vbegin {
        return;
      }
      var i := vbegin / PAGE;
      while i <= (vend - 1) / PAGE
        invariant vbegin / PAGE <= i <= vend / PAGE
        invariant forall k :: i <= k < pt.data.Length ==> pt.data[k] == data[k]
        invariant FreePages(ppinfo[..], pt.data[..], i, vend / PAGE) == FreePages(pp, data, vbegin / PAGE, vend / PAGE)
      {
        ghost var qq, e := ppinfo[..], pt.data[..];
        var ppage := pt.data[i] / PAGE;
        if ppage != 0 {
          assert ppage == Page(data[i]) < ppinfo.Length;
          pt.data[i] := Emptied(pt.data[i]);
          ppinfo[ppage] := PPInfo(Nobody, 0);
          assert ppinfo[..] == qq[ppage := FREE] && pt.data[..] == e[i := Emptied(e[i])];
        }
        i := i + 1;
      }
    }

    /** Set a range of entries, allocating their pages if asked to; false when the pages run out. */
    method SetUsrRange(pt: PageTable, vbegin: nat, vend: nat, alloc: bool, rwx: nat) returns (ok: bool)
      requires Valid() && trans.Some? && vbegin <= vend <= pt.data.Length * PAGE
      modifies ppinfo, pt.data
      ensures var o := SetRange(old(ppinfo[..]), first, old(pt.data[..]), vbegin, vend, alloc, rwx);
              ok == o.ok && ppinfo[..] == o.pp && pt.data[..] == o.data
    {
      ghost var pp, data := ppinfo[..], pt.data[..];
      if vend == vbegin {
        return true;
      }
      var bits := Bits(rwx, alloc);
      var last := (vend - 1) / PAGE;
      var i := vbegin / PAGE;
      ghost var o := SetPages(pp, first, data, i, last, alloc, bits);
      while i <= last
        invariant vbegin / PAGE <= i && last < pt.data.Length && SetPages(ppinfo[..], first, pt.data[..], i, last, alloc, bits) == o
        decreases last + 1 - i
      {
        ghost var qq, e := ppinfo[..], pt.data[..];
        var ppage := pt.data[i] / PAGE;
        if ppage == 0 && alloc {
          ppage := PpAlloc(i);
          if ppage == 0 {
            return false;
          }
        }
        pt.data[i] := Entry(ppage, bits);
        assert pt.data[..] == e[i := Entry(ppage, bits)];
        i := i + 1;
      }
      ok := true;
    }

    /** Build a table with its first heap page, the top of its stack and its shared data; without a page
        for the heap the kernel halts, without pages for the rest everything is undone. */
    method CreateUsrPT(id: nat, kernel: seq<nat>, stackBytes: nat, heapPages: nat, shared: nat, memory: bool)
        returns (pt: PageTable?, halted: bool)
      requires Valid() && trans == NoTable && |kernel| == first && stackBytes > 0
      modifies this`trans, ppinfo
      ensures !halted ==> trans == NoTable
      ensures !memory ==> pt == null && !halted && ppinfo[..] == old(ppinfo[..])
      ensures Sensible(CalcLayout(first * PAGE, stackBytes, heapPages * PAGE, shared), first)
      ensures memory ==> Outcome(Create(old(ppinfo[..]), id, kernel, CalcLayout(first * PAGE, stackBytes, heapPages * PAGE, shared)),
                                 pt, halted, ppinfo[..])
      ensures pt != null ==> pt.id == id
    {
      hide SetRange, Finished, FirstFree, Blank;
      halted, pt := false, null;
      LayoutSensible(first, stackBytes, heapPages * PAGE, shared);
      var l := CalcLayout(first * PAGE, stackBytes, heapPages * PAGE, shared);
      if !memory {
        return;
      }
      var t := new PageTable(id, kernel, l);
      BeginTransaction(t);
      RangeSucceeds(ppinfo[..], first, t.data[..], l.heapBegin, l.heapEnd);
      var ok := SetUsrRange(t, l.heapBegin, l.heapEnd, false, MMU_PTE_RW);
      if l.heapEnd != l.heapBegin {
        ok := SetUsrRange(t, l.heapBegin, l.heapBegin + 1, true, MMU_PTE_RW);
        if !ok {
          halted := true;
          return;
        }
        t.brk := l.heapBegin + PAGE;
      }
      ok := SetUsrRange(t, l.stackBegin, l.sharedEnd, false, MMU_PTE_RW);
      ok := SetUsrRange(t, StackMapped(l), l.sharedEnd, true, MMU_PTE_RW);
      FinishTransaction(ok);
      if ok {
        pt := t;
      }
    }

    /** Give all pages of a table back. */
    method DestroyPT(pt: PageTable)
      requires Valid()
      modifies ppinfo
      ensures ppinfo[..] == Released(old(ppinfo[..]), first, pt.id)
    {
      var count := FreeTablePages(pt);
    }

    /** Move the program break of a process, and map or free the pages in between. */
    method SetBrk(pt: PageTable, newbrk: nat) returns (res: bool)
      requires Valid() && trans == NoTable && Shape(pt.Value(), first)
      requires forall k :: 0 <= k < pt.data.Length ==> Page(pt.data[k]) < ppinfo.Length
      modifies this`trans, ppinfo, pt.data, pt`brk
      ensures trans == NoTable && pt.heapEnd <= pt.data.Length * PAGE && pt.heapEnd % PAGE == 0
      ensures old(pt.brk) <= pt.heapEnd
      ensures var o := PageState.SetBrk(old(ppinfo[..]), first, pt.id, old(pt.Value()), newbrk);
              res == o.ok && ppinfo[..] == o.pp && pt.Value() == o.pt
      ensures if pt.heapBegin <= newbrk <= pt.heapEnd then Moves(old(pt.data[..]), pt.data[..], old(pt.brk), newbrk, res)
              else !res && pt.data[..] == old(pt.data[..])
      ensures pt.brk == if res then newbrk else old(pt.brk)
    {
      hide SetRange, Finished, FreePages, Page, Moves, Cleared, Behind;
      SetBrkMoves(ppinfo[..], first, pt.id, pt.Value(), newbrk);
      if newbrk < pt.heapBegin || newbrk > pt.heapEnd {
        return false;
      }
      if SamePage(newbrk, pt.brk) {
        pt.brk := newbrk;
        return true;
      }
      res := true;
      BeginTransaction(pt);
      if newbrk > pt.brk {
        res := SetUsrRange(pt, pt.brk, newbrk, true, MMU_PTE_RW);
      } else {
        FreePageRange(pt, PageUp(newbrk), PageUp(pt.brk));
      }
      FinishTransaction(res);
      if res {
        pt.brk := newbrk;
      }
    }
  }

  /** How the outcome of creating a table shows. */
  ghost predicate Outcome(o: CreateOut, pt: PageTable?, halted: bool, pp: seq<PPInfo>)
    reads pt, if pt != null then {pt.data} else {}
  {
    match o
    case Created(qq, v) => pt != null && !halted && pt.Value() == v && pp == qq
    case Refused(qq) => pt == null && !halted && pp == qq
    case Halted => pt == null && halted
  }

  /** How many of the pages from `first` up to `n` belong to table `t`. */
  function Owned(pp: seq<PPInfo>, first: nat, t: nat, n: nat): nat
    requires n <= |pp|
  {
    if n <= first then 0 else Owned(pp, first, t, n - 1) + if pp[n - 1].owner == Table(t) then 1 else 0
  }
}
