/** Physical pages and page tables: who owns a page, and what transactions, break changes and tables
    coming and going do to that. */
module PageState {
  const PAGE: nat := 4096
  const KEYS: nat := 128
  const MMU_PTE_RW: nat := 0xC00
  const MMU_PTE_KEY_USR: nat := 2

  /** Pages of a transaction under way are tagged; those of the kernel belong to its own table. */
  datatype Owner = Nobody | Tag | Kernel | Table(id: nat)

  datatype PPInfo = PPInfo(owner: Owner, vpage: nat)

  const FREE := PPInfo(Nobody, 0)

  /** A page table: its entries, and its heap with the program break. */
  datatype PT = PT(data: seq<nat>, heapBegin: nat, heapEnd: nat, brk: nat)

  /** The pages, the first of them that users can have, and the tables of all processes. */
  datatype M = M(pp: seq<PPInfo>, first: nat, tables: map<nat, PT>)

  /** The physical page of a table entry, 0 for none. */
  function Page(w: nat): nat {
    w / PAGE
  }

  function Entry(page: nat, bits: nat): (w: nat)
    ensures bits < PAGE ==> Page(w) == page && w % PAGE == bits
  {
    page * PAGE + bits
  }

  /** An entry without page and keys. */
  function Emptied(w: nat): (r: nat)
    ensures Page(r) == 0
  {
    w % PAGE / KEYS * KEYS
  }

  function PageUp(a: nat): (r: nat)
    ensures r % PAGE == 0 && a <= r < a + PAGE
  {
    (a + PAGE - 1) / PAGE * PAGE
  }

  // ---------- transactions ----------

  /** The first free page from `i` on. */
  function FirstFree(pp: seq<PPInfo>, i: nat): (p: nat)
    requires i <= |pp|
    ensures i <= p <= |pp|
    ensures p < |pp| ==> pp[p].owner == Nobody
    ensures forall q :: i <= q < p ==> pp[q].owner != Nobody
    decreases |pp| - i
  {
    if i == |pp| || pp[i].owner == Nobody then i else FirstFree(pp, i + 1)
  }

  /** A page when the transaction of table `t` ends. */
  function Finish(x: PPInfo, t: nat, commit: bool): PPInfo {
    if x.owner != Tag then x else if commit then x.(owner := Table(t)) else FREE
  }

  function Finished(pp: seq<PPInfo>, first: nat, t: nat, commit: bool): (r: seq<PPInfo>)
    ensures |r| == |pp|
    ensures forall p :: 0 <= p < |pp| ==> r[p] == if p >= first then Finish(pp[p], t, commit) else pp[p]
  {
    seq(|pp|, p requires 0 <= p < |pp| => if p >= first then Finish(pp[p], t, commit) else pp[p])
  }

  function Release(x: PPInfo, t: nat): PPInfo {
    if x.owner == Table(t) then FREE else x
  }

  /** The pages when all those of table `t` have been released. */
  function Released(pp: seq<PPInfo>, first: nat, t: nat): (r: seq<PPInfo>)
    ensures |r| == |pp|
    ensures forall p :: 0 <= p < |pp| ==> r[p] == if p >= first then Release(pp[p], t) else pp[p]
  {
    seq(|pp|, p requires 0 <= p < |pp| => if p >= first then Release(pp[p], t) else pp[p])
  }

  // ---------- ranges of entries ----------

  datatype Out = Out(ok: bool, pp: seq<PPInfo>, data: seq<nat>)

  /** Set the entries from `i` to `last`, allocating the pages that are missing if asked to. */
  function SetPages(pp: seq<PPInfo>, first: nat, data: seq<nat>, i: nat, last: int, alloc: bool, bits: nat): (o: Out)
    requires first <= |pp| && last < |data|
    ensures |o.pp| == |pp| && |o.data| == |data|
    decreases last + 1 - i
  {
    if i > last then Out(true, pp, data)
    else if Page(data[i]) == 0 && alloc then
      var q := FirstFree(pp, first);
      if q == |pp| then Out(false, pp, data)
      else SetPages(pp[q := PPInfo(Tag, i)], first, data[i := Entry(q, bits)], i + 1, last, alloc, bits)
    else SetPages(pp, first, data[i := Entry(Page(data[i]), bits)], i + 1, last, alloc, bits)
  }

  /** The bits of an entry: its rights, and the user's key if there is a page behind it. */
  function Bits(rwx: nat, alloc: bool): nat {
    rwx + if alloc then MMU_PTE_KEY_USR else 0
  }

  /** The last page of a range of addresses; one less than its first if the range is empty and aligned. */
  function LastPage(vend: nat): int
    requires vend > 0
  {
    (vend - 1) / PAGE
  }

  function SetRange(pp: seq<PPInfo>, first: nat, data: seq<nat>, vbegin: nat, vend: nat, alloc: bool, rwx: nat): (o: Out)
    requires first <= |pp| && vend <= |data| * PAGE
    ensures |o.pp| == |pp| && |o.data| == |data|
  {
    if vbegin == vend || vend == 0 then Out(true, pp, data)
    else SetPages(pp, first, data, vbegin / PAGE, LastPage(vend), alloc, Bits(rwx, alloc))
  }

  /** Give the pages behind the entries from `i` up to `end` back. */
  function FreePages(pp: seq<PPInfo>, data: seq<nat>, i: nat, end: nat): (o: Out)
    requires end <= |data|
    ensures |o.pp| == |pp| && |o.data| == |data| && o.ok
    decreases end - i
  {
    if i >= end then Out(true, pp, data)
    else
      var p := Page(data[i]);
      if 0 < p < |pp| then FreePages(pp[p := FREE], data[i := Emptied(data[i])], i + 1, end)
      else FreePages(pp, data, i + 1, end)
  }

  // ---------- the break ----------

  datatype BrkOut = BrkOut(ok: bool, pp: seq<PPInfo>, pt: PT)

  predicate InHeap(pt: PT, a: nat) {
    pt.heapBegin <= a <= pt.heapEnd
  }

  predicate SamePage(a: nat, b: nat) {
    a / PAGE == b / PAGE
  }

  ghost predicate Shape(pt: PT, first: nat) {
    && pt.heapBegin % PAGE == 0 && pt.heapEnd % PAGE == 0
    && 0 < first && first * PAGE <= pt.heapBegin <= pt.brk <= pt.heapEnd <= |pt.data| * PAGE
  }

  /** Set the break of table `t`. */
  function SetBrk(pp: seq<PPInfo>, first: nat, t: nat, pt: PT, newbrk: nat): BrkOut
    requires first <= |pp| && pt.brk <= pt.heapEnd <= |pt.data| * PAGE && pt.heapEnd % PAGE == 0
  {
    if !InHeap(pt, newbrk) then BrkOut(false, pp, pt)
    else if SamePage(newbrk, pt.brk) then BrkOut(true, pp, pt.(brk := newbrk))
    else if newbrk > pt.brk then
      var o := SetRange(pp, first, pt.data, pt.brk, newbrk, true, MMU_PTE_RW);
      BrkOut(o.ok, Finished(o.pp, first, t, o.ok), pt.(data := o.data, brk := if o.ok then newbrk else pt.brk))
    else
      var o := FreePages(pp, pt.data, PageUp(newbrk) / PAGE, PageUp(pt.brk) / PAGE);
      BrkOut(true, Finished(o.pp, first, t, true), pt.(data := o.data, brk := newbrk))
  }

  // ---------- what has to hold ----------

  /** Between transactions: kernel pages below `first`, and above it no tag is left. */
  ghost predicate Clean(pp: seq<PPInfo>, first: nat) {
    && 0 < first <= |pp|
    && (forall p :: 0 <= p < first ==> pp[p].owner == Kernel)
    && forall p :: first <= p < |pp| ==> pp[p] == FREE || pp[p].owner.Table?
  }

  /** Every page that a user entry of table `t` holds belongs to that entry. */
  ghost predicate Held(pp: seq<PPInfo>, first: nat, t: nat, data: seq<nat>) {
    forall k :: first <= k < |data| && Page(data[k]) != 0 ==> OwnedBy(pp, first, Page(data[k]), t, k)
  }

  ghost predicate OwnedBy(pp: seq<PPInfo>, first: nat, p: nat, t: nat, k: nat) {
    first <= p < |pp| && pp[p] == PPInfo(Table(t), k)
  }

  /** Every page that belongs to an entry of table `t` is held by it. */
  ghost predicate Backed(pp: seq<PPInfo>, first: nat, t: nat, data: seq<nat>) {
    forall p :: first <= p < |pp| && pp[p].owner == Table(t) ==> HeldAt(data, first, pp[p].vpage, p)
  }

  ghost predicate HeldAt(data: seq<nat>, first: nat, k: nat, p: nat) {
    first <= k < |data| && Page(data[k]) == p
  }

  ghost predicate OwnersKnown(m: M) {
    forall p :: m.first <= p < |m.pp| && m.pp[p].owner.Table? ==> m.pp[p].owner.id in m.tables
  }

  ghost predicate TableOk(m: M, t: nat)
    requires t in m.tables
  {
    && Shape(m.tables[t], m.first)
    && Held(m.pp, m.first, t, m.tables[t].data) && Backed(m.pp, m.first, t, m.tables[t].data)
  }

  /** Pages and table entries match exactly. */
  ghost predicate Good(m: M) {
    && Clean(m.pp, m.first) && OwnersKnown(m)
    && forall t :: t in m.tables ==> TableOk(m, t)
  }

  /** No two user entries, of one table or of two, hold the same page, and none holds a kernel page. */
  lemma NoSharing(m: M, t: nat, k: nat, u: nat, l: nat)
    requires Good(m) && t in m.tables && u in m.tables && (t != u || k != l)
    requires m.first <= k < |m.tables[t].data| && m.first <= l < |m.tables[u].data|
    requires Page(m.tables[t].data[k]) != 0
    ensures Page(m.tables[t].data[k]) != Page(m.tables[u].data[l])
    ensures m.pp[Page(m.tables[t].data[k])].owner != Kernel
  {
    assert TableOk(m, t) && TableOk(m, u);
    assert OwnedBy(m.pp, m.first, Page(m.tables[t].data[k]), t, k);
    if Page(m.tables[u].data[l]) != 0 {
      assert OwnedBy(m.pp, m.first, Page(m.tables[u].data[l]), u, l);
    }
  }

  /** Every byte of the heap below the break has a page. */
  ghost predicate Mapped(pt: PT) {
    forall k :: 0 <= k < |pt.data| && pt.heapBegin <= k * PAGE < pt.brk ==> Page(pt.data[k]) != 0
  }

  // ---------- while a transaction runs ----------

  /** What a transaction on table `t` may have done to the pages so far: it tagged free ones, and each
      of those is behind an entry that had none. */
  ghost predicate Staged(pp0: seq<PPInfo>, pp: seq<PPInfo>, first: nat, data: seq<nat>, t: nat) {
    && |pp| == |pp0| && 0 < first <= |pp|
    && (forall p :: 0 <= p < |pp| ==> pp[p] == pp0[p] || Tagged(pp0, pp, first, data, p))
    && (forall k :: first <= k < |data| && Page(data[k]) != 0 ==> Taken(pp, first, Page(data[k]), t, k))
    && forall p :: first <= p < |pp| && pp[p].owner == Table(t) ==> HeldAt(data, first, pp[p].vpage, p)
  }

  ghost predicate Tagged(pp0: seq<PPInfo>, pp: seq<PPInfo>, first: nat, data: seq<nat>, p: nat) {
    first <= p < |pp| <= |pp0| && pp0[p] == FREE && pp[p].owner == Tag && HeldAt(data, first, pp[p].vpage, p)
  }

  ghost predicate Taken(pp: seq<PPInfo>, first: nat, p: nat, t: nat, k: nat) {
    first <= p < |pp| && (pp[p] == PPInfo(Tag, k) || pp[p] == PPInfo(Table(t), k))
  }

  lemma StageStart(pp: seq<PPInfo>, first: nat, data: seq<nat>, t: nat)
    requires Clean(pp, first) && Held(pp, first, t, data) && Backed(pp, first, t, data)
    ensures Staged(pp, pp, first, data, t)
  {
    forall k | first <= k < |data| && Page(data[k]) != 0
      ensures Taken(pp, first, Page(data[k]), t, k)
    {
      assert OwnedBy(pp, first, Page(data[k]), t, k);
    }
  }

  /** An entry keeps its page. */
  lemma StageKeep(pp0: seq<PPInfo>, pp: seq<PPInfo>, first: nat, data: seq<nat>, t: nat, i: nat, w: nat)
    requires Staged(pp0, pp, first, data, t) && i < |data| && Page(w) == Page(data[i])
    ensures Staged(pp0, pp, first, data[i := w], t)
  {
    hide Page;
    var e := data[i := w];
    forall p: nat | p < |pp|
      ensures pp[p] == pp0[p] || Tagged(pp0, pp, first, e, p)
    {
    }
    forall k | first <= k < |e| && Page(e[k]) != 0
      ensures Taken(pp, first, Page(e[k]), t, k)
    {
      assert Page(data[k]) == Page(e[k]);
    }
  }

  /** An entry that had no page gets a free one. */
  lemma StageTake(pp0: seq<PPInfo>, pp: seq<PPInfo>, first: nat, data: seq<nat>, t: nat, i: nat, q: nat, w: nat)
    requires Clean(pp0, first) && Staged(pp0, pp, first, data, t) && first <= i < |data|
    requires Page(data[i]) == 0 && first <= q < |pp| && pp[q].owner == Nobody && Page(w) == q
    ensures Staged(pp0, pp[q := PPInfo(Tag, i)], first, data[i := w], t)
  {
    hide Page;
    var e, qq := data[i := w], pp[q := PPInfo(Tag, i)];
    forall p: nat | p < |qq|
      ensures qq[p] == pp0[p] || Tagged(pp0, qq, first, e, p)
    {
      assert p != q ==> qq[p] == pp[p];
    }
    forall k | first <= k < |e| && Page(e[k]) != 0
      ensures Taken(qq, first, Page(e[k]), t, k)
    {
      if k != i {
        assert Taken(pp, first, Page(data[k]), t, k);
      }
    }
    forall p | first <= p < |qq| && qq[p].owner == Table(t)
      ensures HeldAt(e, first, qq[p].vpage, p)
    {
      assert HeldAt(data, first, pp[p].vpage, p);
    }
  }

  lemma {:induction false} SetPagesStaged(pp0: seq<PPInfo>, pp: seq<PPInfo>, first: nat, data: seq<nat>, t: nat, i: nat,
                                          last: int, alloc: bool, bits: nat)
    requires Clean(pp0, first) && Staged(pp0, pp, first, data, t) && first <= i && last < |data| && bits < PAGE
    ensures var o := SetPages(pp, first, data, i, last, alloc, bits); Staged(pp0, o.pp, first, o.data, t)
    decreases last + 1 - i
  {
    hide Staged, Clean, Page, Entry;
    StagedFirst(pp0, pp, first, data, t);
    if i <= last {
      if Page(data[i]) == 0 && alloc {
        var q := FirstFree(pp, first);
        if q < |pp| {
          StageTake(pp0, pp, first, data, t, i, q, Entry(q, bits));
          SetPagesStaged(pp0, pp[q := PPInfo(Tag, i)], first, data[i := Entry(q, bits)], t, i + 1, last, alloc, bits);
        }
      } else {
        StageKeep(pp0, pp, first, data, t, i, Entry(Page(data[i]), bits));
        SetPagesStaged(pp0, pp, first, data[i := Entry(Page(data[i]), bits)], t, i + 1, last, alloc, bits);
      }
    }
  }

  lemma StagedFirst(pp0: seq<PPInfo>, pp: seq<PPInfo>, first: nat, data: seq<nat>, t: nat)
    requires Staged(pp0, pp, first, data, t)
    ensures 0 < first <= |pp| == |pp0|
  {
  }

  /** Rolling back restores the page information exactly. */
  lemma RollbackRestores(pp0: seq<PPInfo>, pp: seq<PPInfo>, first: nat, data: seq<nat>, t: nat)
    requires Clean(pp0, first) && Staged(pp0, pp, first, data, t)
    ensures Finished(pp, first, t, false) == pp0
  {
    hide Page;
    var r := Finished(pp, first, t, false);
    forall p: nat | p < |pp|
      ensures r[p] == pp0[p]
    {
      assert pp[p] == pp0[p] || Tagged(pp0, pp, first, data, p);
    }
  }

  ghost predicate MineOrFree(x: PPInfo, t: nat) {
    x == FREE || x.owner == Table(t)
  }

  /** Only pages that are free or belong to table `t` may differ, and stay free or table `t`'s. */
  ghost predicate OnlyMine(pp: seq<PPInfo>, qq: seq<PPInfo>, t: nat) {
    |pp| == |qq| && forall p :: 0 <= p < |pp| ==> pp[p] == qq[p] || (MineOrFree(pp[p], t) && MineOrFree(qq[p], t))
  }

  /** Committing gives exactly the tagged pages to the table, each to the entry that holds it. */
  lemma CommitSettles(pp0: seq<PPInfo>, pp: seq<PPInfo>, first: nat, data: seq<nat>, t: nat)
    requires Clean(pp0, first) && Staged(pp0, pp, first, data, t)
    ensures var r := Finished(pp, first, t, true);
            && Clean(r, first) && Held(r, first, t, data) && Backed(r, first, t, data) && OnlyMine(pp0, r, t)
            && forall p :: 0 <= p < |pp| ==> r[p] == if pp[p].owner == Tag then PPInfo(Table(t), pp[p].vpage) else pp0[p]
  {
    hide Page;
    var r := Finished(pp, first, t, true);
    forall p: nat | p < |pp|
      ensures r[p] == if pp[p].owner == Tag then PPInfo(Table(t), pp[p].vpage) else pp0[p]
      ensures pp[p].owner == Tag ==> pp0[p] == FREE && HeldAt(data, first, pp[p].vpage, p)
    {
      assert pp[p] == pp0[p] || Tagged(pp0, pp, first, data, p);
    }
    forall k | first <= k < |data| && Page(data[k]) != 0
      ensures OwnedBy(r, first, Page(data[k]), t, k)
    {
      assert Taken(pp, first, Page(data[k]), t, k);
    }
  }

  // ---------- what setting entries does ----------

  /** Entries outside the range stay, pages once behind an entry stay, and success leaves none of the
      range without a page. */
  lemma {:induction false} SetPagesData(pp: seq<PPInfo>, first: nat, data: seq<nat>, i: nat, last: int, alloc: bool, bits: nat)
    requires first <= |pp| && last < |data| && bits < PAGE
    ensures var o := SetPages(pp, first, data, i, last, alloc, bits);
            && (forall k :: 0 <= k < |data| && (k < i || k > last) ==> o.data[k] == data[k])
            && (forall k :: 0 <= k < |data| && Page(data[k]) != 0 ==> Page(o.data[k]) == Page(data[k]))
    decreases last + 1 - i
  {
    hide Page, Entry;
    if i <= last {
      if Page(data[i]) == 0 && alloc {
        var q := FirstFree(pp, first);
        if q < |pp| {
          SetPagesData(pp[q := PPInfo(Tag, i)], first, data[i := Entry(q, bits)], i + 1, last, alloc, bits);
        }
      } else {
        var w := Entry(Page(data[i]), bits);
        SetPagesData(pp, first, data[i := w], i + 1, last, alloc, bits);
      }
    }
  }

  lemma {:induction false} SetPagesMaps(pp: seq<PPInfo>, first: nat, data: seq<nat>, i: nat, last: int, bits: nat)
    requires 0 < first <= |pp| && last < |data| && bits < PAGE && SetPages(pp, first, data, i, last, true, bits).ok
    ensures forall k :: i <= k <= last ==> Page(SetPages(pp, first, data, i, last, true, bits).data[k]) != 0
    decreases last + 1 - i
  {
    hide Page, Entry;
    if i <= last {
      var q := FirstFree(pp, first);
      var (qq, w) := if Page(data[i]) == 0 then (pp[q := PPInfo(Tag, i)], Entry(q, bits)) else (pp, Entry(Page(data[i]), bits));
      SetPagesData(qq, first, data[i := w], i + 1, last, true, bits);
      SetPagesMaps(qq, first, data[i := w], i + 1, last, bits);
    }
  }

  /** Without allocation it always succeeds, and takes no page. */
  lemma {:induction false} SetPagesUnmapped(pp: seq<PPInfo>, first: nat, data: seq<nat>, i: nat, last: int, bits: nat)
    requires first <= |pp| && last < |data| && bits < PAGE
    ensures var o := SetPages(pp, first, data, i, last, false, bits);
            o.ok && o.pp == pp && forall k :: 0 <= k < |data| ==> Page(o.data[k]) == Page(data[k])
    decreases last + 1 - i
  {
    hide Page, Entry;
    if i <= last {
      SetPagesUnmapped(pp, first, data[i := Entry(Page(data[i]), bits)], i + 1, last, bits);
    }
  }

  /** The free pages from `i` on. */
  function FreeCount(pp: seq<PPInfo>, i: nat): nat
    decreases |pp| - i
  {
    if i >= |pp| then 0 else (if pp[i].owner == Nobody then 1 else 0) + FreeCount(pp, i + 1)
  }

  /** The entries from `i` to `last` that have no page. */
  function Missing(data: seq<nat>, i: nat, last: int): nat
    decreases last + 1 - i
  {
    if i > last || i >= |data| then 0 else (if Page(data[i]) == 0 then 1 else 0) + Missing(data, i + 1, last)
  }

  lemma {:induction false} FirstCounts(pp: seq<PPInfo>, i: nat, t: PPInfo)
    requires i <= |pp| && t.owner != Nobody
    ensures FirstFree(pp, i) == |pp| <==> FreeCount(pp, i) == 0
    ensures FirstFree(pp, i) < |pp| ==> FreeCount(pp[FirstFree(pp, i) := t], i) == FreeCount(pp, i) - 1
    decreases |pp| - i
  {
    if i < |pp| {
      if pp[i].owner == Nobody {
        SameBehind(pp, pp[i := t], i + 1);
      } else {
        FirstCounts(pp, i + 1, t);
      }
    }
  }

  lemma {:induction false} SameBehind(pp: seq<PPInfo>, qq: seq<PPInfo>, i: nat)
    requires |pp| == |qq| && forall k :: i <= k < |pp| ==> pp[k] == qq[k]
    ensures FreeCount(pp, i) == FreeCount(qq, i)
    decreases |pp| - i
  {
    if i < |pp| {
      SameBehind(pp, qq, i + 1);
    }
  }

  lemma {:induction false} SameMissing(data: seq<nat>, e: seq<nat>, i: nat, last: int)
    requires |data| == |e| && forall k :: i <= k < |data| ==> data[k] == e[k]
    ensures Missing(data, i, last) == Missing(e, i, last)
    decreases last + 1 - i
  {
    if i <= last {
      SameMissing(data, e, i + 1, last);
    }
  }

  /** Setting entries succeeds exactly if there are as many free pages as entries without one. */
  lemma {:induction false} SetPagesOk(pp: seq<PPInfo>, first: nat, data: seq<nat>, i: nat, last: int, bits: nat)
    requires 0 < first <= |pp| && last < |data| && bits < PAGE
    ensures SetPages(pp, first, data, i, last, true, bits).ok <==> Missing(data, i, last) <= FreeCount(pp, first)
    decreases last + 1 - i
  {
    hide Page, Entry, FreeCount;
    if i <= last {
      var q := FirstFree(pp, first);
      FirstCounts(pp, first, PPInfo(Tag, i));
      if Page(data[i]) == 0 {
        if q < |pp| {
          SameMissing(data, data[i := Entry(q, bits)], i + 1, last);
          SetPagesOk(pp[q := PPInfo(Tag, i)], first, data[i := Entry(q, bits)], i + 1, last, bits);
        }
      } else {
        var w := Entry(Page(data[i]), bits);
        SameMissing(data, data[i := w], i + 1, last);
        SetPagesOk(pp, first, data[i := w], i + 1, last, bits);
      }
    }
  }

  predicate NoneFree(pp: seq<PPInfo>, first: nat)
    requires first <= |pp|
  {
    FirstFree(pp, first) == |pp|
  }

  /** When it fails no page is free any more.  It left an entry with a page that will be taken back
      exactly if one had been free at the start. */
  lemma {:induction false} SetPagesFails(pp: seq<PPInfo>, first: nat, data: seq<nat>, i: nat, last: int, alloc: bool, bits: nat)
    requires 0 < first <= |pp| && last < |data| && bits < PAGE && !SetPages(pp, first, data, i, last, alloc, bits).ok
    ensures var o := SetPages(pp, first, data, i, last, alloc, bits);
            && NoneFree(o.pp, first)
            && (NoneFree(pp, first) ==> o.pp == pp && forall k :: 0 <= k < |data| ==> Page(o.data[k]) == Page(data[k]))
            && (!NoneFree(pp, first) ==> exists k :: i <= k <= last && Page(data[k]) == 0 && Page(o.data[k]) != 0)
    decreases last + 1 - i
  {
    hide Page, Entry;
    var q := FirstFree(pp, first);
    if Page(data[i]) == 0 && alloc {
      if q < |pp| {
        var w := Entry(q, bits);
        SetPagesFails(pp[q := PPInfo(Tag, i)], first, data[i := w], i + 1, last, alloc, bits);
        SetPagesData(pp[q := PPInfo(Tag, i)], first, data[i := w], i + 1, last, alloc, bits);
        assert Page(data[i]) == 0 && Page(SetPages(pp, first, data, i, last, alloc, bits).data[i]) != 0;
      }
    } else {
      var w := Entry(Page(data[i]), bits);
      SetPagesFails(pp, first, data[i := w], i + 1, last, alloc, bits);
      var o := SetPages(pp, first, data, i, last, alloc, bits);
      assert o == SetPages(pp, first, data[i := w], i + 1, last, alloc, bits);
      if !NoneFree(pp, first) {
        var k :| i + 1 <= k <= last && Page(data[i := w][k]) == 0 && Page(o.data[k]) != 0;
        assert Page(data[k]) == 0;
      }
    }
  }
}
