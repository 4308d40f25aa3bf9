/** The heap allocator: an address-ordered circular list of nodes with first fit from a roving
    cursor, splitting, merging and a break that grows and shrinks.  Node headers, guards and user
    bytes share one memory; a header is only ever read where the list says that one is. */
module Heap {
  import opened Words
  import opened HeapRam
  import opened HeapBlocks
  import opened HeapLinks
  import opened HeapSteps

  function AlignedDown(v: nat): (r: nat)
    ensures r % ALIGNMENT == 0 && r <= v < r + ALIGNMENT
  {
    v / 4 * 4
  }

  /** Between the aligned ends there is room for a first free node. */
  predicate RoomForFirst(heapStart: nat, heapSize: nat) {
    Aligned(heapStart) + NS + FREENODE_MIN_SIZE + GUARD <= AlignedDown(heapStart + heapSize)
  }

  /** The size the initialisation insists on is enough exactly when it still is after the start was
      aligned up; for an aligned start it always is. */
  lemma InitialRoom(heapStart: nat, heapSize: nat)
    requires heapSize >= NS + GUARD + FREENODE_MIN_SIZE
    ensures RoomForFirst(heapStart, heapSize) <==>
            heapSize >= NS + GUARD + FREENODE_MIN_SIZE + (Aligned(heapStart) - heapStart)
    ensures heapStart % ALIGNMENT == 0 ==> RoomForFirst(heapStart, heapSize)
  {
    DownOver(heapStart + heapSize, Aligned(heapStart) + NS + FREENODE_MIN_SIZE + GUARD);
  }

  lemma DownOver(v: nat, c: nat)
    requires c % ALIGNMENT == 0
    ensures c <= AlignedDown(v) <==> c <= v
  {
  }

  /** An unaligned start for which the size the initialisation insists on is not enough. */
  lemma InitialRoomCanFail()
    ensures !RoomForFirst(1, NS + GUARD + FREENODE_MIN_SIZE)
  {
  }

  class Allocator {
    const start: nat
    const minbrk: nat
    /** Whether there is a break function to ask for more memory. */
    const hasBrk: bool
    var ram: Ram
    var brk: nat
    var cursor: nat
    ghost var bs: seq<Block>

    /** The list in memory is in order; the break has not sunk below its first value. */
    ghost predicate Sound()
      reads `ram, `bs, `brk
    {
      InOrder(ram, bs, start, brk) && minbrk % ALIGNMENT == 0 && minbrk <= brk
    }

    /** What holds between two calls. */
    ghost predicate Valid()
      reads `ram, `bs, `brk, `cursor
    {
      Sound() && Merged(bs) && exists i :: IsAt(bs, i, cursor)
    }

    /** Start a heap in the `heapSize` bytes from `heapStart` on. */
    constructor (memory: Ram, heapStart: nat, heapSize: nat, hasBrk: bool)
      requires 0 < heapStart && heapStart + heapSize <= |memory| <= WORD_LIMIT
      requires RoomForFirst(heapStart, heapSize)
      ensures Valid() && bs == [Block(Aligned(heapStart), 0)] && brk == minbrk == AlignedDown(heapStart + heapSize)
      ensures this.hasBrk == hasBrk && |ram| == |memory|
    {
      hide NodeAt, Store32;
      var first := Aligned(heapStart);
      var end := AlignedDown(heapStart + heapSize);
      var m := SetPrev(memory, first, first);
      StoreField(memory, first, 0, first, first);
      StoreField(m, first, 4, first, first);
      m := SetNext(m, first, first);
      StoreField(m, first, 8, 0, first);
      m := SetSize(m, first, 0);
      StoreField(m, first, 12, GUARD_VALUE, first);
      m := SetFirstGuard(m, first);
      start, minbrk, brk, cursor := first, end, end, first;
      this.hasBrk := hasBrk;
      ram := m;
      bs := [Block(first, 0)];
      new;
      FirstNodeList(m, first, end);
      assert IsAt(bs, 0, cursor);
    }

    // ---------- reading the list ----------

    predicate IsLast(node: nat)
      requires node + NS <= |ram|
      reads `ram
    {
      node >= NodeAt(ram, node).next
    }

    function GetCapacity(node: nat): int
      requires node + NS <= |ram|
      reads `ram, `brk
    {
      if IsLast(node) then brk - (node + NS) else NodeAt(ram, node).next - (node + NS)
    }

    /** The header of a block tells its neighbours, its size and its room. */
    lemma NodeFacts(i: nat)
      requires InOrder(ram, bs, start, brk) && i < |bs|
      ensures bs[i].at + NS <= |ram| && |ram| <= WORD_LIMIT && 0 < bs[i].at && bs[i].at % ALIGNMENT == 0
      ensures var n := NodeAt(ram, bs[i].at);
              n.prev == bs[PrevIndex(i, |bs|)].at && n.next == bs[NextIndex(i, |bs|)].at && n.size == bs[i].size
              && n.guard == GUARD_VALUE
      ensures GetCapacity(bs[i].at) == Cap(bs, brk, i) >= FREENODE_MIN_SIZE + GUARD
      ensures IsLast(bs[i].at) <==> i + 1 == |bs|
      ensures bs[i].at < NodeAt(ram, bs[i].at).next <==> i + 1 < |bs|
      ensures bs[i].at > NodeAt(ram, bs[i].at).prev <==> i > 0
      ensures bs[PrevIndex(i, |bs|)].at + NS <= |ram| && bs[NextIndex(i, |bs|)].at + NS <= |ram|
    {
      assert LinkedAt(ram, bs, i) && LinkedAt(ram, bs, PrevIndex(i, |bs|)) && LinkedAt(ram, bs, NextIndex(i, |bs|));
      assert FineAt(bs, brk, i);
      if i + 1 < |bs| {
        Ascending(bs, start, brk, i, i + 1);
      } else {
        Below(0, i);
      }
      if i > 0 {
        Below(i - 1, i);
      } else {
        Below(0, |bs| - 1);
      }
    }

    lemma Below(i: nat, j: nat)
      requires Tiled(bs, start, brk) && i <= j < |bs|
      ensures bs[i].at <= bs[j].at && (i < j ==> bs[i].at < bs[j].at)
    {
      if i < j {
        Ascending(bs, start, brk, i, j);
        assert FineAt(bs, brk, i);
      }
    }

    // ---------- the list ----------

    /** Take the free node `node` out of the list. */
    method RemoveNode(node: nat, ghost i: nat)
      requires Sound() && IsAt(bs, i, node) && 0 < i && bs[i].size == 0
      modifies this`ram, this`bs
      ensures Sound() && bs == Dropped(old(bs), i) && SameSizes(bs, old(bs)) && |ram| == old(|ram|)
      ensures Only(old(ram), ram, Headers(old(bs)))
    {
      hide Fine, NodeAt, SizeAt, Store32, Linked, Guarded, Tiled;
      NodeFacts(i);
      CoalesceSteps(ram, bs, start, brk, i - 1);
      var n := NodeAt(ram, node);
      ghost var m := ram;
      ram := SetNext(ram, n.prev, n.next);
      ram := SetPrev(ram, n.next, n.prev);
      ram := SetNext(ram, node, 0);
      ram := SetPrev(ram, node, 0);
      assert ram == Unlinked(m, bs[i - 1].at, bs[i].at, bs[NextIndex(i, |bs|)].at);
      bs := Dropped(bs, i);
    }

    /** Merge a node with the next one if that is free. */
    method TryCoalesce(node: nat, ghost i: nat) returns (merged: bool)
      requires Sound() && IsAt(bs, i, node)
      modifies this`ram, this`bs
      ensures Sound() && bs == Coalesced(old(bs), i) && SameSizes(bs, old(bs))
      ensures Only(old(ram), ram, Headers(old(bs)))
      ensures merged <==> i + 1 < |old(bs)| && old(bs)[i + 1].size == 0
    {
      hide Fine, NodeAt, SizeAt, Store32, Linked, Guarded, Tiled, Dropped;
      NodeFacts(i);
      var next := NodeAt(ram, node).next;
      merged := false;
      if node < next {
        NodeFacts(i + 1);
        if NodeAt(ram, next).size == 0 {
          RemoveNode(next, i + 1);
          merged := true;
        }
      }
    }

    /** Insert the free node `newnode` behind `node`; its guard may still be missing. */
    method AddNodeAfter(node: nat, newnode: nat, ghost i: nat)
      requires Sound() && IsAt(bs, i, node) && Tiled(Inserted(bs, i + 1, Block(newnode, 0)), start, brk)
      requires newnode + NS <= |ram| && NodeAt(ram, newnode).size == 0
      modifies this`ram, this`bs
      ensures bs == Inserted(old(bs), i + 1, Block(newnode, 0)) && SameSizes(bs, old(bs))
      ensures |ram| == old(|ram|) && InOrder(SetFirstGuard(ram, newnode), bs, start, brk)
      ensures NodeAt(ram, newnode).guard == old(NodeAt(ram, newnode).guard)
      ensures Only(old(ram), ram, Headers(bs))
    {
      hide Fine, NodeAt, SizeAt, Store32, Linked, Guarded, Tiled, Inserted;
      NodeFacts(i);
      SpliceSteps(ram, bs, start, brk, i, newnode);
      ghost var m, at, nx := ram, bs[i].at, bs[NextIndex(i, |bs|)].at;
      NextUntouched(i, newnode);
      ram := SetPrev(ram, newnode, node);
      ram := SetNext(ram, newnode, NodeAt(ram, node).next);
      ram := SetPrev(ram, NodeAt(ram, node).next, newnode);
      ram := SetNext(ram, node, newnode);
      assert ram == Spliced(m, at, nx, newnode);
      bs := Inserted(bs, i + 1, Block(newnode, 0));
    }

    lemma NextUntouched(i: nat, x: nat)
      requires InOrder(ram, bs, start, brk) && i < |bs| && Tiled(Inserted(bs, i + 1, Block(x, 0)), start, brk)
      requires x + NS <= |ram|
      ensures bs[i].at + NS <= |ram| && bs[NextIndex(i, |bs|)].at + NS <= |ram|
      ensures var nx := bs[NextIndex(i, |bs|)].at;
              && NodeAt(SetPrev(ram, x, bs[i].at), bs[i].at).next == nx
              && NodeAt(SetNext(SetPrev(ram, x, bs[i].at), x, nx), bs[i].at).next == nx
    {
      hide NodeAt, Store32, Fine;
      NodeFacts(i);
      var cs := Inserted(bs, i + 1, Block(x, 0));
      assert cs[i] == bs[i] && cs[i + 1] == Block(x, 0);
      BlockHeaders(cs, start, brk, i, i + 1);
      var nx := bs[NextIndex(i, |bs|)].at;
      StoreField(ram, x, 0, bs[i].at, bs[i].at);
      StoreField(SetPrev(ram, x, bs[i].at), x, 4, nx, bs[i].at);
    }

    // ---------- putting a node to use ----------

    /** Mark a node as `n` bytes in use and set its guards. */
    method MarkUsed(node: nat, n: nat, ghost i: nat)
      requires IsAt(bs, i, node) && Tiled(bs, start, brk) && brk <= |ram| && minbrk % ALIGNMENT == 0 && minbrk <= brk
      requires node + NS <= |ram| && InOrder(SetFirstGuard(ram, node), bs, start, brk)
      requires 0 < n && n + GUARD <= Cap(bs, brk, i)
      modifies this`ram, this`bs
      ensures Sound() && bs == Sized(old(bs), i, n) && Cap(bs, brk, i) == Cap(old(bs), brk, i)
      ensures KeepsBut(old(bs), old(ram), ram, node) && |ram| == old(|ram|) && node + NS + n <= |ram|
      ensures ram[node + NS..node + NS + n] == old(ram)[node + NS..node + NS + n]
    {
      hide Fine, NodeAt, SizeAt, Store32, Linked, Guarded, Tiled, KeepsBut, SetSize, SetFirstGuard;
      MarkSteps(ram, bs, start, brk, i, n);
      SizedTiles(bs, start, brk, i, n);
      ram := SetSize(ram, node, n);
      ram := SetFirstGuard(ram, node);
      ram := Store32(ram, node + NS + n, GUARD_VALUE);
      bs := Sized(bs, i, n);
    }

    /** Split a free node off behind the first `c` bytes of room of a node. */
    method SplitOff(node: nat, c: nat, ghost i: nat)
      requires Sound() && IsAt(bs, i, node) && c % ALIGNMENT == 0
      requires Tiled(Inserted(bs, i + 1, Block(node + NS + c, 0)), start, brk)
      modifies this`ram, this`bs
      ensures Sound() && bs == Coalesced(Inserted(old(bs), i + 1, Block(node + NS + c, 0)), i + 1)
      ensures SameSizes(bs, old(bs)) && |ram| == old(|ram|)
      ensures Only(old(ram), ram, Headers(Inserted(old(bs), i + 1, Block(node + NS + c, 0))))
    {
      hide Fine, NodeAt, SizeAt, Store32, Linked, Guarded, Tiled, Inserted, Coalesced, Only, SetSize, SetFirstGuard;
      var x := node + NS + c;
      ghost var m, b, cs := ram, bs, Inserted(bs, i + 1, Block(x, 0));
      InsertedAt(bs, i + 1, Block(x, 0));
      BlockFits(cs, start, brk, i + 1);
      RamLimit();
      NewFreeHeader(ram, x);
      ram := SetSize(ram, x, 0);
      ram := SetFirstGuard(ram, x);
      assert ram == NewFree(m, x);
      ghost var r1 := ram;
      NewHeaderSteps(m, ram, bs, start, brk, i + 1, x);
      HeaderIn(cs, i + 1);
      OnlyMore(m, ram, Range(x, NS), Headers(cs));
      AddNodeAfter(node, x, i);
      GuardAlreadySet(ram, bs, start, brk, i + 1);
      OnlyTwice(m, r1, ram, Headers(cs), Headers(cs));
      ghost var r2 := ram;
      var merged := TryCoalesce(x, i + 1);
      OnlyTwice(m, r2, ram, Headers(cs), Headers(cs));
      assert Headers(cs) + Headers(cs) == Headers(cs);
    }

    /** Put `newSize` bytes of a node to use with room for `newCapacity`. */
    method ResizeAsUsed(node: nat, newSize: nat, newCapacity: nat, ghost i: nat)
      requires IsAt(bs, i, node) && Tiled(bs, start, brk) && brk <= |ram| && minbrk % ALIGNMENT == 0 && minbrk <= brk
      requires node + NS <= |ram| && InOrder(SetFirstGuard(ram, node), bs, start, brk)
      requires 0 < newSize && newSize + GUARD <= newCapacity <= Cap(bs, brk, i)
      requires newCapacity % ALIGNMENT == 0 && FREENODE_MIN_SIZE + GUARD <= newCapacity
      modifies this`ram, this`bs
      ensures Sound() && bs == Resized(old(bs), brk, i, newSize, newCapacity)
      ensures KeepsBut(old(bs), old(ram), ram, node) && |ram| == old(|ram|) && node + NS + newSize <= |ram|
      ensures ram[node + NS..node + NS + newSize] == old(ram)[node + NS..node + NS + newSize]
    {
      hide Fine, NodeAt, SizeAt, Store32, Linked, Guarded, Tiled, Inserted, Coalesced, Only, KeepsBut, SetFirstGuard;
      ghost var m, b := ram, bs;
      ResizedBlocks(bs, start, brk, i, newSize, newCapacity);
      MarkUsed(node, newSize, i);
      ghost var r, c := ram, bs;
      NodeFacts(i);
      var leftOver := GetCapacity(node) - newCapacity;
      if leftOver >= NS + FREENODE_MIN_SIZE + GUARD {
        ghost var ds := Inserted(c, i + 1, Block(node + NS + newCapacity, 0));
        SplitOff(node, newCapacity, i);
        AddedSizes(c, i + 1, node + NS + newCapacity);
        InsideUse(b, start, brk, i, newSize);
        MarkThenHeaders(b, c, ds, start, brk, i, newSize, m, r, ram);
      }
    }

    // ---------- freeing ----------

    /** Mark a node as free. */
    method Unuse(node: nat, ghost i: nat)
      requires Sound() && IsAt(bs, i, node)
      modifies this`ram, this`bs
      ensures Sound() && bs == Sized(old(bs), i, 0) && Only(old(ram), ram, Headers(old(bs)))
    {
      hide Fine, NodeAt, SizeAt, Linked, Guarded, Tiled, Only, SetSize;
      UnuseSteps(ram, bs, start, brk, i);
      ram := SetSize(ram, node, 0);
      bs := Sized(bs, i, 0);
    }

    /** Free a node and merge it with its free neighbours; `cursor` is left there. */
    method FreeNode(node: nat, ghost i: nat)
      requires Sound() && IsAt(bs, i, node)
      modifies this`ram, this`bs, this`cursor
      ensures Sound() && bs == Freed(old(bs), i) && IsAt(bs, FreedIndex(old(bs), i), cursor)
      ensures Only(old(ram), ram, Headers(old(bs)))
    {
      hide Fine, NodeAt, SizeAt, Linked, Guarded, Tiled, Only, Dropped, Headers;
      ghost var m, b := ram, bs;
      Unuse(node, i);
      ghost var r1, b1 := ram, bs;
      SizedHeaders(b, i, 0);
      RamLimit();
      CoalescedTiles(b1, start, brk, i);
      CoalescedHeaders(b1, i);
      var merged := TryCoalesce(node, i);
      ghost var r2, b2 := ram, bs;
      OnlyTwice(m, r1, r2, Headers(b), Headers(b1));
      CoalescedFront(b1, i);
      NodeFacts(i);
      cursor := node;
      var prev := NodeAt(ram, node).prev;
      ghost var p := PrevIndex(i, |bs|);
      NodeFacts(p);
      if NodeAt(ram, prev).size == 0 {
        merged := TryCoalesce(prev, p);
        OnlyTwice(m, r2, ram, Headers(b) + Headers(b1), Headers(b2));
        CoalescedFront(b2, p);
        if merged {
          cursor := prev;
        }
      }
      OnlyMore(m, ram, Headers(b) + Headers(b1) + Headers(b2), Headers(b));
    }

    /** The last node of the list. */
    function Last(): nat
      requires start + NS <= |ram|
      reads `ram
    {
      NodeAt(ram, start).prev
    }

    lemma LastFacts()
      requires InOrder(ram, bs, start, brk)
      ensures bs != [] && start + NS <= |ram| && Last() == bs[|bs| - 1].at
    {
      NodeFacts(0);
    }

    lemma LastRoom()
      requires InOrder(ram, bs, start, brk)
      ensures bs != [] && bs[|bs| - 1].at + NS + FREENODE_MIN_SIZE + GUARD <= brk
      ensures (bs[|bs| - 1].at + NS + FREENODE_MIN_SIZE + GUARD) % ALIGNMENT == 0
    {
      assert FineAt(bs, brk, |bs| - 1);
    }

    /** The heap ends with the least room of a free last block, but not below its first break; without such
        a block, or a break function, it ends where it did. */
    ghost predicate GaveBack(from: nat)
      reads `bs, `brk
    {
      && bs != []
      && if hasBrk && bs[|bs| - 1].size == 0 then brk == Max(bs[|bs| - 1].at + NS + FREENODE_MIN_SIZE + GUARD, minbrk)
         else brk == from
    }

    /** Give memory behind a free last node back, as far as the first break allows. */
    method ReleasePages()
      requires Sound() && bs != []
      modifies this`brk
      ensures Sound() && minbrk <= brk <= old(brk)
      ensures GaveBack(old(brk))
    {
      hide Fine, NodeAt, Linked, Guarded, Tiled, Last, GetCapacity, IsLast;
      LastFacts();
      NodeFacts(|bs| - 1);
      LastRoom();
      if NodeAt(ram, Last()).size == 0 && hasBrk {
        var newbrk := Max(Last() + NS + FREENODE_MIN_SIZE + GUARD, minbrk);
        ShrinkTiles(bs, start, brk, newbrk);
        brk := newbrk;
      }
    }

    // ---------- searching ----------

    /** First fit from `first` on, once around the list. */
    method FindFree(first: nat, minSize: nat, ghost c: nat) returns (node: nat, ghost i: nat)
      requires Sound() && IsAt(bs, c, first)
      ensures node == 0 ==> NoFit(bs, brk, minSize)
      ensures node != 0 ==> IsAt(bs, i, node) && Fits(bs, brk, i, minSize)
      ensures node != 0 ==> PassedUnfit(bs, brk, minSize, i < c, c, i)
    {
      hide Fine, NodeAt, Linked, Guarded, Tiled, GetCapacity, IsLast;
      node, i := first, c;
      var begun := false;
      ghost var wrapped := false;
      while !begun || node != first
        invariant IsAt(bs, i, node) && PassedUnfit(bs, brk, minSize, wrapped, c, i)
        invariant begun || (i == c && !wrapped)
        invariant begun ==> (node == first <==> i == c)
        invariant if wrapped then i <= c else c <= i && (begun ==> c < i)
        decreases !begun, !wrapped, |bs| - i
      {
        NodeFacts(i);
        if NodeAt(ram, node).size == 0 && GetCapacity(node) >= minSize {
          return;
        }
        begun := true;
        node := NodeAt(ram, node).next;
        if i + 1 == |bs| {
          wrapped := true;
          i := 0;
        } else {
          i := i + 1;
        }
        RamLimit();
        SameIndex(i, c, node, first);
      }
      node := 0;
    }

    lemma SameIndex(i: nat, c: nat, node: nat, first: nat)
      requires Tiled(bs, start, brk) && IsAt(bs, i, node) && IsAt(bs, c, first)
      ensures node == first <==> i == c
    {
      if node == first {
        OneIndex(bs, start, brk, i, c, node);
      }
    }

    // ---------- growing ----------

    /** Raise the break; the free last block picks the room up. */
    method RaiseBreak(to: nat)
      requires Sound() && brk <= to <= |ram| && to % ALIGNMENT == 0
      modifies this`brk
      ensures Sound() && brk == to
    {
      GrowTiles(bs, start, brk, to);
      brk := to;
    }

    /** Make the room between `x` and the break a free node at the end of the list. */
    method AddTail(x: nat)
      requires Sound() && bs != [] && Tiled(Inserted(bs, |bs|, Block(x, 0)), start, brk)
      modifies this`ram, this`bs
      ensures bs == Inserted(old(bs), |old(bs)|, Block(x, 0)) && SameSizes(bs, old(bs))
      ensures |ram| == old(|ram|) && x + NS <= |ram| && InOrder(SetFirstGuard(ram, x), bs, start, brk)
      ensures KeepsUser(old(bs), old(ram), ram) && start + NS <= |ram| && Last() == x
    {
      hide Fine, NodeAt, SizeAt, Store32, Linked, Guarded, Tiled, Inserted, Only, Last, SetSize, SetFirstGuard;
      ghost var m, b := ram, bs;
      ghost var cs := Inserted(bs, |bs|, Block(x, 0));
      InsertedAt(bs, |bs|, Block(x, 0));
      BlockFits(cs, start, brk, |bs|);
      RamLimit();
      NewFreeHeader(ram, x);
      LastFacts();
      var last := Last();
      ram := SetSize(ram, x, 0);
      NewHeaderSteps(m, ram, bs, start, brk, |bs|, x);
      ghost var r := ram;
      AddNodeAfter(last, x, |bs| - 1);
      HeadersKeepUser(bs, start, brk, r, ram);
      UserTwice(b, bs, m, r, ram);
      NearlyLast(x);
    }

    /** Ready for `ResizeAsUsed`: in order as soon as the guard of `node` is set. */
    ghost predicate Nearly(node: nat)
      reads `ram, `bs, `brk
    {
      Tiled(bs, start, brk) && brk <= |ram| && minbrk % ALIGNMENT == 0 && minbrk <= brk
      && node + NS <= |ram| && InOrder(SetFirstGuard(ram, node), bs, start, brk)
    }

    lemma SoundIsNearly(i: nat)
      requires Sound() && i < |bs|
      ensures Nearly(bs[i].at)
    {
      NodeFacts(i);
      GuardAlreadySet(ram, bs, start, brk, i);
    }

    /** Ask for a higher break; on success the last node is free and has room for `capacity`. */
    method Grow(size: nat, capacity: nat, grant: bool) returns (node: nat, ghost i: nat)
      requires Valid() && size > 0 && capacity == Aligned(size + GUARD) && NoFit(bs, brk, capacity)
      modifies this`ram, this`bs, this`brk
      ensures |ram| == old(|ram|) && old(bs) != []
      ensures node == 0 <==> !(hasBrk && grant && Wanted(old(bs), old(brk), size) <= |ram|)
      ensures node == 0 ==> ram == old(ram) && bs == old(bs) && brk == old(brk)
      ensures node != 0 ==> brk == Wanted(old(bs), old(brk), size)
      ensures node != 0 ==> Nearly(node) && IsAt(bs, i, node) && bs[i].size == 0 && Cap(bs, brk, i) >= capacity
      ensures node != 0 ==> MergedBut(bs, i) && SameSizes(bs, old(bs)) && KeepsUser(old(bs), old(ram), ram)
      ensures node != 0 ==> i + 1 == |bs| && node == if old(bs)[|old(bs)| - 1].size == 0 then old(bs)[|old(bs)| - 1].at else old(brk)
    {
      hide Fine, NodeAt, SizeAt, Linked, Guarded, Tiled, Inserted, Last, GetCapacity, IsLast, Request, Wanted, NoFit;
      hide Merged, MergedBut, SameSizes, KeepsUser, PageAligned;
      node, i := 0, 0;
      LastFacts();
      ghost var z := |bs| - 1;
      NodeFacts(z);
      WantedIs(size);
      if hasBrk {
        var last := Last();
        var lastIsFree := NodeAt(ram, last).size == 0;
        var wantedBrk := PageAligned(brk + Request(size, lastIsFree, GetCapacity(last)));
        if grant && wantedBrk <= |ram| {
          RamLimit();
          if lastIsFree {
            GrownRoom(bs, start, brk, size);
            NothingMoved(bs, ram, z);
            RaiseBreak(wantedBrk);
            node, i := Last(), z;
            SoundIsNearly(z);
          } else {
            GrownTail(bs, start, brk, size);
            var newNode := brk;
            ghost var b := bs;
            RaiseBreak(wantedBrk);
            AddTail(newNode);
            InsertedAt(b, |b|, Block(newNode, 0));
            TailMerged(b, newNode);
            node, i := Last(), |b|;
          }
        }
      }
    }

    lemma WantedIs(size: nat)
      requires InOrder(ram, bs, start, brk) && bs != []
      ensures start + NS <= |ram| && Last() + NS <= |ram|
      ensures Wanted(bs, brk, size) == PageAligned(brk + Request(size, NodeAt(ram, Last()).size == 0, GetCapacity(Last())))
      ensures Wanted(bs, brk, size) >= brk && Wanted(bs, brk, size) % ALIGNMENT == 0
      ensures brk > 0
    {
      hide NodeAt, Linked, GetCapacity, IsLast, Last, Fine, Guarded, Tiled, Request, PageAligned;
      LastFacts();
      NodeFacts(|bs| - 1);
      LastRoom();
      PageIsWord(Wanted(bs, brk, size));
    }

    // ---------- the interface ----------

    /** Put the free node `node` to use and move the cursor behind it. */
    method Occupy(node: nat, size: nat, capacity: nat, ghost i: nat)
      requires Nearly(node) && IsAt(bs, i, node) && MergedBut(bs, i) && size > 0
      requires capacity == Aligned(size + GUARD) && capacity <= Cap(bs, brk, i)
      modifies this`ram, this`bs, this`cursor
      ensures Valid() && |ram| == old(|ram|) && bs == Resized(old(bs), brk, i, size, capacity)
      ensures KeepsBut(old(bs), old(ram), ram, node) && node + NS + size <= |ram|
      ensures ram[node + NS..node + NS + size] == old(ram)[node + NS..node + NS + size]
      ensures Trimmed(bs, brk, i, size, Cap(old(bs), brk, i)) && IsAt(bs, i, node) && IsBehind(bs, node, cursor)
    {
      hide Fine, NodeAt, SizeAt, Linked, Guarded, Tiled, Resized, KeepsBut, InOrder, Trimmed;
      ResizedBlocks(bs, start, brk, i, size, capacity);
      ResizedTrimmed(bs, start, brk, i, size);
      ResizedMerged(bs, brk, i, size, capacity);
      ResizeAsUsed(node, size, capacity, i);
      NodeFacts(i);
      cursor := NodeAt(ram, node).next;
      assert IsAt(bs, i, node) && IsAt(bs, NextIndex(i, |bs|), cursor);
    }

    lemma MergedIsBut(i: nat)
      requires Merged(bs)
      ensures MergedBut(bs, i)
    {
    }

    /** Allocate `size` bytes: NULL exactly if nothing was asked for, or no free node is large
        enough and the break cannot be raised; then nothing has changed. */
    method Malloc(size: nat, grant: bool) returns (ptr: nat)
      requires Valid() && brk + size + NS + GUARD + 2 * PAGE_SIZE <= WORD_LIMIT
      modifies this`ram, this`bs, this`brk, this`cursor
      ensures Valid() && |ram| == old(|ram|) && old(bs) != []
      ensures ptr == 0 <==> size == 0 || (NoFit(old(bs), old(brk), Aligned(size + GUARD))
                                          && !(hasBrk && grant && Wanted(old(bs), old(brk), size) <= |ram|))
      ensures ptr == 0 ==> ram == old(ram) && bs == old(bs) && brk == old(brk) && cursor == old(cursor)
      ensures ptr != 0 ==> ptr > NS && ptr % ALIGNMENT == 0 && Added(old(bs), old(ram), bs, ram, ptr, size)
      ensures ptr != 0 ==> Placed(old(bs), old(brk), old(cursor), size, bs, brk, ptr - NS) && IsBehind(bs, ptr - NS, cursor)
      ensures Raised(old(bs), old(brk), size, brk)
    {
      hide *;
      ghost var c := Cursor();
      NotRaised(bs, brk, size);
      if size == 0 {
        return 0;
      }
      var capacity := Aligned(size + GUARD);
      var node;
      ghost var i, b, m := 0, bs, ram;
      node, i := FindFree(cursor, capacity, c);
      if node == 0 {
        node, i := Grow(size, capacity, grant);
        if node == 0 {
          return 0;
        }
        RaisedTo(b, old(brk), size);
        WhereGrown(b, old(brk), cursor, size, bs, brk, i, node);
      } else {
        AtIndex(bs, i, node);
        WhereFits(b, brk, cursor, size, c, i, node);
        MergedIsBut(i);
        FitMeans(b, brk, i, capacity);
        SoundIsNearly(i);
        KeepsSame(b, m);
      }
      AtIndex(bs, i, node);
      ghost var b1, m1 := bs, ram;
      NearlyFacts(node, i);
      Occupy(node, size, capacity, i);
      ResizedAdds(b, b1, start, brk, i, size, capacity, m, m1, ram);
      PlacedAt(b, old(brk), old(cursor), size, bs, brk, node, i, Cap(b1, brk, i));
      ptr := node + NS;
    }

    lemma RaisedTo(b: seq<Block>, end: nat, size: nat)
      requires b != [] && size > 0 && NoFit(b, end, Aligned(size + GUARD))
      ensures Raised(b, end, size, Wanted(b, end, size))
    {
    }

    lemma Cursor() returns (c: nat)
      requires Valid()
      ensures Sound() && Merged(bs) && IsAt(bs, c, cursor) && bs != []
    {
      c :| IsAt(bs, c, cursor);
    }

    lemma NearlyFacts(node: nat, i: nat)
      requires Nearly(node) && IsAt(bs, i, node)
      ensures Tiled(bs, start, brk) && node % ALIGNMENT == 0 && (node + NS) % ALIGNMENT == 0 && node > 0
    {
      assert FineAt(bs, brk, i);
    }

    /** Whether the guards of a node in use are intact. */
    predicate CheckGuards(node: nat)
      requires node + NS <= |ram| && node + NS + NodeAt(ram, node).size + GUARD <= |ram|
      reads `ram
    {
      NodeAt(ram, node).guard == GUARD_VALUE && Load32(ram, node + NS + NodeAt(ram, node).size) == GUARD_VALUE
    }

    /** The guards of every block in use are intact: the allocator's corruption checks never fail. */
    lemma GuardsIntact(i: nat)
      requires Sound() && i < |bs| && bs[i].size > 0
      ensures bs[i].at + NS <= |ram| && bs[i].at + NS + NodeAt(ram, bs[i].at).size + GUARD <= |ram|
      ensures CheckGuards(bs[i].at)
    {
      hide Fine, NodeAt, Load32, Linked, SizeAt, Tiled, GetCapacity, IsLast;
      NodeFacts(i);
      SizeAtIs(bs, start, brk, i);
      assert GuardBehind(ram, bs[i].at, SizeAt(bs, bs[i].at));
    }

    /** Free a node, and give memory behind it back if asked to. */
    method FreeImpl(node: nat, tryPageRelease: bool, ghost i: nat)
      requires Sound() && Merged(bs) && IsAt(bs, i, node) && bs[i].size > 0
      modifies this`ram, this`bs, this`cursor, this`brk
      ensures Valid() && bs == Freed(old(bs), i) && minbrk <= brk <= old(brk) && (!tryPageRelease ==> brk == old(brk))
      ensures (tryPageRelease ==> GaveBack(old(brk))) && FreeAround(bs, old(brk), node, cursor)
      ensures Taken(old(bs), old(ram), bs, ram, node + NS)
      ensures SameStart(old(ram), ram, node + NS, node + NS, old(bs)[i].size)
    {
      hide Fine, NodeAt, SizeAt, Linked, Guarded, Tiled, Only, Freed, Headers, Taken, SameStart;
      GuardsIntact(i);
      ghost var b, m := bs, ram;
      SizeFits(b, start, brk, i);
      RamLimit();
      FreeNode(node, i);
      FreedTakes(b, start, brk, i, m, ram);
      FreedBytes(b, start, brk, i, m, ram, b[i].size);
      FreedMerged(b, i);
      FreedAround(b, start, brk, i);
      if tryPageRelease {
        ReleasePages();
      }
      assert IsAt(bs, FreedIndex(b, i), cursor) && Merged(bs);
    }

    /** Free the block at `ptr`. */
    method Free(ptr: nat)
      requires Valid() && (ptr != 0 ==> ptr >= NS && SizeAt(bs, ptr - NS) > 0)
      modifies this`ram, this`bs, this`cursor, this`brk
      ensures Valid() && minbrk <= brk <= old(brk) && |ram| == old(|ram|)
      ensures ptr == 0 ==> ram == old(ram) && bs == old(bs) && brk == old(brk)
      ensures ptr != 0 ==> Taken(old(bs), old(ram), bs, ram, ptr)
      ensures ptr != 0 ==> GaveBack(old(brk)) && FreeAround(bs, old(brk), ptr - NS, cursor)
    {
      hide Fine, NodeAt, SizeAt, Linked, Guarded, Tiled, Freed, Taken, SameStart, KeepsUser, GaveBack, FreeAround;
      if ptr == 0 {
        return;
      }
      RamLimit();
      ghost var i := UsedIndex(bs, start, brk, ptr - NS);
      FreeImpl(ptr - NS, true, i);
      TakenSize(old(bs), old(ram), bs, ram, ptr);
    }

    /** Move `n` bytes, overlapping or not, to the start of block `j`. */
    method MoveBytes(dst: nat, src: nat, n: nat, ghost j: nat)
      requires Sound() && j < |bs| && dst == bs[j].at + NS && dst + n <= WriteEnd(bs, brk, j) && src + n <= |ram|
      modifies this`ram
      ensures Sound() && |ram| == old(|ram|) && (old(Valid()) ==> Valid())
      ensures KeepsBut(bs, old(ram), ram, bs[j].at) && SameStart(old(ram), ram, src, dst, n)
    {
      hide Fine, NodeAt, SizeAt, Linked, Guarded, Tiled, KeepsBut, Put;
      ghost var valid, c := Valid(), 0;
      if valid {
        c := Cursor();
      }
      RamLimit();
      WriteInside(bs, start, brk, j);
      PutOnly(ram, dst, ram[src..src + n]);
      RoomWrite(ram, Put(ram, dst, ram[src..src + n]), bs, start, brk, j, dst, n);
      ram := Put(ram, dst, ram[src..src + n]);
      assert valid ==> IsAt(bs, c, cursor) && Merged(bs);
    }

    // ---------- reallocating ----------

    /** Resize a block in use to what its own room allows, dropping a free next node first if
        `merge` says so. */
    method ResizeInPlace(node: nat, n: nat, c: nat, merge: bool, ghost i: nat)
      requires Sound() && Merged(bs) && IsAt(bs, i, node) && bs[i].size > 0 && n > 0 && c == Aligned(n + GUARD)
      requires if merge then NextFree(bs, i) && c <= WithNext(bs, brk, i) else c <= Cap(bs, brk, i)
      modifies this`ram, this`bs, this`cursor
      ensures Valid() && |ram| == old(|ram|)
      ensures Moved(old(bs), old(ram), bs, ram, node + NS, node + NS, n)
      ensures TrimmedAt(bs, brk, node, n, if merge then WithNext(old(bs), brk, i) else Cap(old(bs), brk, i))
    {
      hide Fine, NodeAt, SizeAt, Linked, Guarded, Tiled, KeepsBut, Moved, KeepsUser, Only, Resized, SameStart, Nearly,
           Dropped, MergedBut, InOrder, GetCapacity, IsLast, Trimmed, TrimmedAt;
      ghost var b, m := bs, ram;
      SizeIs(i);
      RamLimit();
      SameBytes(b, m, m, start, brk, i, n);
      if merge {
        NodeFacts(i);
        DroppedBut(b, i);
        DroppedTiles(b, start, brk, i + 1);
        RemoveNode(NodeAt(ram, node).next, i + 1);
        HeadersKeepUser(b, start, brk, m, ram);
        RamLimit();
        SameBytes(b, m, ram, start, brk, i, n);
      } else {
        MergedIsBut(i);
        KeepsSame(b, m);
      }
      ghost var b1, m1 := bs, ram;
      UserIsBut(b, m, m1, node);
      SoundIsNearly(i);
      Occupy(node, n, c, i);
      ResizedMoves(b, b1, start, brk, i, n, c, m, m1, ram);
      TrimmedIsAt(bs, brk, i, node, n, Cap(b1, brk, i));
    }

    /** Merge a block in use with its free previous node, and with the next one if that is free as
        well, moving its bytes to the front. */
    method MergePrevious(node: nat, n: nat, c: nat, ghost i: nat) returns (newNode: nat)
      requires Sound() && Merged(bs) && IsAt(bs, i, node) && bs[i].size > 0 && n > 0 && c == Aligned(n + GUARD)
      requires PrevFree(bs, i) && c <= WithAll(bs, brk, i) && bs[i].size <= n
      modifies this`ram, this`bs, this`cursor, this`brk
      ensures Valid() && |ram| == old(|ram|) && brk == old(brk) && newNode == old(bs)[i - 1].at
      ensures Moved(old(bs), old(ram), bs, ram, node + NS, newNode + NS, n)
      ensures TrimmedAt(bs, brk, newNode, n, WithAll(old(bs), brk, i))
    {
      hide Fine, NodeAt, SizeAt, Linked, Guarded, Tiled, KeepsBut, Moved, KeepsUser, Only, Resized, SameStart, Nearly,
           MergedBut, InOrder, GetCapacity, IsLast, Taken, Freed, WithAll, Trimmed, TrimmedAt, FreeAround;
      ghost var b, m := bs, ram;
      NodeFacts(i);
      newNode := NodeAt(ram, node).prev;
      var currSize := NodeAt(ram, node).size;
      RamLimit();
      MergeRoom(b, start, brk, i, c);
      FreeImpl(node, false, i);
      ghost var m1, cs := ram, bs;
      RamLimit();
      FreedMerged(b, i);
      TakenSize(b, m, cs, m1, node + NS);
      MoveBytes(newNode + NS, node + NS, currSize, i - 1);
      ghost var m2 := ram;
      SoundIsNearly(i - 1);
      MergedIsBut(i - 1);
      SameRam(m1, m2, node + NS, newNode + NS, currSize);
      Occupy(newNode, n, c, i - 1);
      SliceIsStart(m2, ram, newNode + NS, n);
      MergePrevMoves(b, start, brk, i, n, c, m, m1, m2, ram);
      TrimmedIsAt(bs, brk, i - 1, newNode, n, WithAll(b, brk, i));
    }

    /** Allocate a new block, free the old one and move its bytes over. */
    method MoveAway(node: nat, n: nat, grant: bool, ghost i: nat) returns (newPtr: nat)
      requires Valid() && IsAt(bs, i, node) && bs[i].size > 0 && 0 < n && bs[i].size <= n
      requires brk + n + NS + GUARD + 2 * PAGE_SIZE <= WORD_LIMIT
      modifies this`ram, this`bs, this`cursor, this`brk
      ensures Valid() && |ram| == old(|ram|) && old(bs) != []
      ensures newPtr == 0 <==> NoFit(old(bs), old(brk), Aligned(n + GUARD))
                               && !(hasBrk && grant && Wanted(old(bs), old(brk), n) <= |ram|)
      ensures newPtr == 0 ==> ram == old(ram) && bs == old(bs) && brk == old(brk) && cursor == old(cursor)
      ensures newPtr != 0 ==> newPtr > NS && newPtr % ALIGNMENT == 0 && Moved(old(bs), old(ram), bs, ram, node + NS, newPtr, n)
      ensures newPtr != 0 ==> Placed(old(bs), old(brk), old(cursor), n, bs, brk, newPtr - NS)
      ensures Raised(old(bs), old(brk), n, brk)
    {
      hide Fine, NodeAt, SizeAt, Linked, Guarded, Tiled, KeepsBut, Moved, KeepsUser, Only, SameStart,
           InOrder, Taken, Freed, Added, NoFit, Wanted, Raised, Placed, FreeAround, IsBehind;
      ghost var b, m := bs, ram;
      SizeIs(i);
      RamLimit();
      newPtr := Malloc(n, grant);
      if newPtr != 0 {
        ghost var b1, m1 := bs, ram;
        RamLimit();
        AddedFacts(b, m, b1, m1, newPtr, n, node);
        ghost var i1 := UsedIndex(b1, start, brk, node);
        NodeFacts(i1);
        var currSize := NodeAt(ram, node).size;
        BlockEnds(b, m, start, old(brk), i);
        UserStart(b, m, m1, node);
        FreeImpl(node, false, i1);
        ghost var b2, m2 := bs, ram;
        RamLimit();
        TakenFacts(b1, m1, b2, m2, node + NS, newPtr - NS);
        ghost var j := UsedIndex(b2, start, brk, newPtr - NS);
        MoveBytes(newPtr, node + NS, currSize, j);
        CopyMoves(b, m, b1, m1, b2, m2, ram, node + NS, newPtr, n);
        PlacedStays(b, old(brk), old(cursor), n, b1, start, brk, newPtr - NS, i1);
      }
    }

    /** The four ways to reallocate a block in use: in place, into a free next node, into a free
        previous node, or into a new block.  The answer is the node, 0 for none. */
    method ReallocImpl(ptr: nat, newSize: nat, grant: bool, ghost i: nat) returns (r: nat)
      requires Valid() && ptr >= NS && IsAt(bs, i, ptr - NS) && bs[i].size > 0 && newSize > 0
      requires brk + newSize + NS + GUARD + 2 * PAGE_SIZE <= WORD_LIMIT
      modifies this`ram, this`bs, this`brk, this`cursor
      ensures Valid() && |ram| == old(|ram|) && i < |old(bs)|
      ensures r == 0 <==> Aligned(newSize + GUARD) > WithAll(old(bs), old(brk), i)
                          && NoFit(old(bs), old(brk), Aligned(newSize + GUARD))
                          && !(hasBrk && grant && Wanted(old(bs), old(brk), newSize) <= |ram|)
      ensures r == 0 ==> ram == old(ram) && bs == old(bs) && brk == old(brk) && cursor == old(cursor)
      ensures r != 0 ==> Moved(old(bs), old(ram), bs, ram, ptr, r + NS, newSize)
      ensures r != 0 ==> Refitted(old(bs), old(brk), old(cursor), i, newSize, bs, brk, r)
      ensures Raised(old(bs), old(brk), newSize, brk)
    {
      hide *;
      ghost var c0 := Cursor();
      NotRaised(bs, brk, newSize);
      var node := ptr - NS;
      AtIndex(bs, i, node);
      RoomFacts(i, newSize);
      var newCapacity := Aligned(newSize + GUARD);
      var currCapacity := GetCapacity(node);
      if newCapacity <= currCapacity {
        ResizeInPlace(node, newSize, newCapacity, false, i);
        RefitsIn(old(bs), old(brk), old(cursor), i, newSize, bs, node, Cap(old(bs), brk, i));
        return node;
      }
      var n := NodeAt(ram, node);
      var next := 0;
      if node < n.next && NodeAt(ram, n.next).size == 0 {
        next := NS + GetCapacity(n.next);
        if currCapacity + next >= newCapacity {
          ResizeInPlace(node, newSize, newCapacity, true, i);
          RefitsIn(old(bs), old(brk), old(cursor), i, newSize, bs, node, WithNext(old(bs), brk, i));
          return node;
        }
      }
      if node > n.prev && NodeAt(ram, n.prev).size == 0 {
        if newCapacity <= GetCapacity(n.prev) + NS + currCapacity + next {
          r := MergePrevious(node, newSize, newCapacity, i);
          RefitsIn(old(bs), old(brk), old(cursor), i, newSize, bs, r, WithAll(old(bs), brk, i));
          return r;
        }
      }
      r := MoveAway(node, newSize, grant, i);
      if r != 0 {
        r := r - NS;
        RefitsAway(old(bs), old(brk), old(cursor), i, newSize, bs, brk, r);
      }
    }

    lemma RoomFacts(i: nat, newSize: nat)
      requires Sound() && i < |bs| && bs[i].size > 0
      ensures bs[i].at + NS <= |ram| && NodeAt(ram, bs[i].at).next + NS <= |ram| && NodeAt(ram, bs[i].at).prev + NS <= |ram|
      ensures bs[i].at > 0 && |bs| > 0
      ensures GetCapacity(bs[i].at) == Cap(bs, brk, i)
      ensures (bs[i].at < NodeAt(ram, bs[i].at).next && NodeAt(ram, NodeAt(ram, bs[i].at).next).size == 0) <==> NextFree(bs, i)
      ensures NextFree(bs, i) ==> WithNext(bs, brk, i) == Cap(bs, brk, i) + NS + GetCapacity(NodeAt(ram, bs[i].at).next)
      ensures !NextFree(bs, i) ==> WithNext(bs, brk, i) == Cap(bs, brk, i)
      ensures (bs[i].at > NodeAt(ram, bs[i].at).prev && NodeAt(ram, NodeAt(ram, bs[i].at).prev).size == 0) <==> PrevFree(bs, i)
      ensures PrevFree(bs, i) ==> i > 0 && bs[i - 1].at > 0
      ensures PrevFree(bs, i) ==> WithAll(bs, brk, i) == GetCapacity(NodeAt(ram, bs[i].at).prev) + NS + WithNext(bs, brk, i)
      ensures !PrevFree(bs, i) ==> WithAll(bs, brk, i) == WithNext(bs, brk, i)
      ensures WithAll(bs, brk, i) >= WithNext(bs, brk, i) >= Cap(bs, brk, i)
      ensures Aligned(newSize + GUARD) > Cap(bs, brk, i) ==> bs[i].size <= newSize
    {
      hide Fine, NodeAt, SizeAt, Linked, Guarded, Tiled, GetCapacity, IsLast, FineAt;
      NodeFacts(i);
      NodeFacts(NextIndex(i, |bs|));
      NodeFacts(PrevIndex(i, |bs|));
      RamLimit();
      UsedRoom(bs, start, brk, i, newSize);
    }

    /** Reallocate the block at `ptr`: its first bytes are found at the answer, whichever way was
        taken; NULL leaves everything as it was. */
    method Realloc(ptr: nat, newSize: nat, grant: bool) returns (q: nat)
      requires Valid() && (ptr != 0 ==> ptr >= NS && SizeAt(bs, ptr - NS) > 0)
      requires brk + newSize + NS + GUARD + 2 * PAGE_SIZE <= WORD_LIMIT
      modifies this`ram, this`bs, this`brk, this`cursor
      ensures Valid() && |ram| == old(|ram|)
      ensures q == 0 ==> ram == old(ram) && bs == old(bs) && brk == old(brk) && cursor == old(cursor)
      ensures newSize == 0 ==> q == 0
      ensures q != 0 ==> q % ALIGNMENT == 0
      ensures q != 0 && ptr == 0 ==> Added(old(bs), old(ram), bs, ram, q, newSize)
      ensures q != 0 && ptr != 0 ==> Moved(old(bs), old(ram), bs, ram, ptr, q, newSize)
      ensures q != 0 ==> q >= NS && IsBehind(bs, q - NS, cursor)
      ensures q != 0 && ptr == 0 ==> Placed(old(bs), old(brk), old(cursor), newSize, bs, brk, q - NS)
      ensures q != 0 && ptr != 0 ==> RefittedAt(old(bs), old(brk), old(cursor), ptr - NS, newSize, bs, brk, q - NS)
      ensures q == 0 && ptr != 0 && newSize > 0 ==> Hopeless(old(bs), old(brk), ptr - NS, newSize, grant)
      ensures Raised(old(bs), old(brk), newSize, brk)
    {
      hide *;
      NotRaised(bs, brk, newSize);
      q := 0;
      if ptr == 0 {
        q := Malloc(newSize, grant);
        if q != 0 {
          AddedSize(old(bs), old(ram), bs, ram, q, newSize);
          CursorBehind(q - NS);
        }
      } else if newSize > 0 {
        ghost var c := Cursor();
        RamLimitOf();
        ghost var i := UsedIndex(bs, start, brk, ptr - NS);
        AtIndexOf(bs, i, ptr - NS);
        var node := ReallocImpl(ptr, newSize, grant, i);
        if node != 0 {
          q := node + NS;
          MovedSize(old(bs), old(ram), bs, ram, ptr, q, newSize);
          RefittedIsAt(old(bs), old(brk), old(cursor), i, ptr - NS, newSize, bs, brk, node);
          CursorBehind(node);
        } else {
          HopelessAt(bs, brk, i, newSize, grant);
        }
      }
    }

    /** Neither the block's own room with that of its free neighbours nor any free block is large
        enough, and the break cannot be raised. */
    ghost predicate Hopeless(b: seq<Block>, end: nat, a: nat, n: nat, grant: bool)
      reads `ram
    {
      exists i :: IsAt(b, i, a) && Aligned(n + GUARD) > WithAll(b, end, i)
                  && NoFit(b, end, Aligned(n + GUARD)) && !(hasBrk && grant && Wanted(b, end, n) <= |ram|)
    }

    lemma HopelessAt(b: seq<Block>, end: nat, i: nat, n: nat, grant: bool)
      requires i < |b| && Aligned(n + GUARD) > WithAll(b, end, i)
      requires NoFit(b, end, Aligned(n + GUARD)) && !(hasBrk && grant && Wanted(b, end, n) <= |ram|)
      ensures Hopeless(b, end, b[i].at, n, grant)
    {
      assert IsAt(b, i, b[i].at);
    }

    lemma RamLimitOf()
      requires Sound()
      ensures brk <= |ram| <= WORD_LIMIT && Tiled(bs, start, brk)
    {
    }

    /** Move the cursor behind the node `node` in use. */
    method CursorBehind(node: nat)
      requires Valid() && SizeAt(bs, node) > 0
      modifies this`cursor
      ensures Valid() && (node + NS) % ALIGNMENT == 0 && node > 0 && IsBehind(bs, node, cursor)
    {
      hide Fine, NodeAt, SizeAt, Linked, Guarded, Tiled, GetCapacity, IsLast;
      RamLimit();
      ghost var i := UsedIndex(bs, start, brk, node);
      NodeFacts(i);
      cursor := NodeAt(ram, node).next;
      assert IsAt(bs, i, node) && IsAt(bs, NextIndex(i, |bs|), cursor);
    }

    /** The user writes `w` into the block at `ptr`, `o` bytes from its start. */
    method UserWrite(ptr: nat, o: nat, w: seq<Byte>)
      requires Valid() && ptr >= NS && o + |w| <= SizeAt(bs, ptr - NS) && SizeAt(bs, ptr - NS) > 0
      modifies this`ram
      ensures Valid() && |ram| == old(|ram|) && ptr + o + |w| <= |ram| && ram == Put(old(ram), ptr + o, w)
      ensures KeepsBut(bs, old(ram), ram, ptr - NS)
    {
      hide Fine, NodeAt, SizeAt, Linked, Guarded, Tiled, KeepsBut, Put;
      ghost var c := Cursor();
      RamLimit();
      ghost var i := UsedIndex(bs, start, brk, ptr - NS);
      WriteInside(bs, start, brk, i);
      PutOnly(ram, ptr + o, w);
      RoomWrite(ram, Put(ram, ptr + o, w), bs, start, brk, i, ptr + o, |w|);
      ram := Put(ram, ptr + o, w);
      assert IsAt(bs, c, cursor);
    }

    /** Allocate `size` bytes that are all zero. */
    method Calloc(size: nat, grant: bool) returns (ptr: nat)
      requires Valid() && brk + size + NS + GUARD + 2 * PAGE_SIZE <= WORD_LIMIT
      modifies this`ram, this`bs, this`brk, this`cursor
      ensures Valid() && |ram| == old(|ram|) && old(bs) != []
      ensures ptr == 0 <==> size == 0 || (NoFit(old(bs), old(brk), Aligned(size + GUARD))
                                          && !(hasBrk && grant && Wanted(old(bs), old(brk), size) <= |ram|))
      ensures ptr == 0 ==> ram == old(ram) && bs == old(bs) && brk == old(brk) && cursor == old(cursor)
      ensures ptr != 0 ==> ptr % ALIGNMENT == 0 && Added(old(bs), old(ram), bs, ram, ptr, size)
      ensures ptr != 0 ==> ptr >= NS && Placed(old(bs), old(brk), old(cursor), size, bs, brk, ptr - NS) && IsBehind(bs, ptr - NS, cursor)
      ensures ptr != 0 ==> ptr + size <= |ram| && forall k :: ptr <= k < ptr + size ==> ram[k] == 0
      ensures Raised(old(bs), old(brk), size, brk)
    {
      hide *;
      ptr := Malloc(size, grant);
      if ptr != 0 {
        ghost var b1, m1 := bs, ram;
        AddedSize(old(bs), old(ram), bs, ram, ptr, size);
        UserWrite(ptr, 0, Zeros(size));
        PutZeros(m1, ptr, size);
        AddedThenWritten(old(bs), old(ram), b1, m1, ram, ptr, size);
      }
    }

    lemma SizeIs(i: nat)
      requires Sound() && i < |bs|
      ensures SizeAt(bs, bs[i].at) == bs[i].size && KeepsUser(bs, ram, ram) && SameSizes(bs, bs)
    {
      SizeAtIs(bs, start, brk, i);
    }

    lemma NearlyLast(x: nat)
      requires x + NS <= |ram| <= WORD_LIMIT && InOrder(SetFirstGuard(ram, x), bs, start, brk)
      requires bs[|bs| - 1].at == x
      ensures start + NS <= |ram| && Last() == x
    {
      hide NodeAt, Store32;
      assert LinkedAt(SetFirstGuard(ram, x), bs, 0);
      BlockHeaders(bs, start, brk, |bs| - 1, 0);
      StoreField(ram, x, 12, GUARD_VALUE, start);
    }

    lemma RamLimit()
      requires InOrder(ram, bs, start, brk)
      ensures brk <= |ram| <= WORD_LIMIT && Tiled(bs, start, brk)
    {
    }
  }

  lemma UserTwice(bs: seq<Block>, cs: seq<Block>, m: Ram, r: Ram, t: Ram)
    requires KeepsUser(bs, m, r) && KeepsUser(cs, r, t) && SameSizes(cs, bs)
    ensures KeepsUser(bs, m, t)
  {
    forall a: nat | SizeAt(bs, a) > 0
      ensures User(t, a, SizeAt(bs, a)) == User(m, a, SizeAt(bs, a))
    {
      assert SizeAt(cs, a) == SizeAt(bs, a);
    }
  }

  lemma NothingMoved(bs: seq<Block>, m: Ram, i: nat)
    requires Merged(bs)
    ensures MergedBut(bs, i) && SameSizes(bs, bs) && KeepsUser(bs, m, m)
  {
  }

  lemma TailMerged(bs: seq<Block>, x: nat)
    requires Merged(bs) && bs != []
    ensures MergedBut(Inserted(bs, |bs|, Block(x, 0)), |bs|)
  {
  }

  /** The end of a heap whose break was raised. */
  lemma WhereGrown(b: seq<Block>, end: nat, cursor: nat, n: nat, bs: seq<Block>, to: nat, i: nat, a: nat)
    requires b != [] && NoFit(b, end, Aligned(n + GUARD)) && IsAt(bs, i, a) && i + 1 == |bs|
    requires a == if b[|b| - 1].size == 0 then b[|b| - 1].at else end
    ensures Where(b, end, cursor, n, to, a, Cap(bs, to, i))
  {
  }

  /** The first fit. */
  lemma WhereFits(b: seq<Block>, end: nat, cursor: nat, n: nat, c: nat, i: nat, a: nat)
    requires IsAt(b, c, cursor) && IsAt(b, i, a) && Fits(b, end, i, Aligned(n + GUARD))
    requires PassedUnfit(b, end, Aligned(n + GUARD), i < c, c, i)
    ensures Where(b, end, cursor, n, end, a, Cap(b, end, i))
  {
    assert FirstFit(b, end, c, i, Aligned(n + GUARD));
  }

  lemma PlacedAt(b: seq<Block>, end: nat, cursor: nat, n: nat, cs: seq<Block>, to: nat, a: nat, i: nat, room: int)
    requires Where(b, end, cursor, n, to, a, room) && IsAt(cs, i, a) && Trimmed(cs, to, i, n, room)
    ensures Placed(b, end, cursor, n, cs, to, a)
  {
    TrimmedIsAt(cs, to, i, a, n, room);
  }

  /** Freeing another block leaves the new one where it is. */
  lemma PlacedStays(b: seq<Block>, end: nat, cursor: nat, n: nat, cs: seq<Block>, start: nat, to: nat, a: nat, i: nat)
    requires Placed(b, end, cursor, n, cs, to, a) && n > 0 && i < |cs| && cs[i].at != a
    ensures Placed(b, end, cursor, n, Freed(cs, i), to, a)
  {
    hide Freed, Where, Trimmed;
    var room :| Where(b, end, cursor, n, to, a, room) && TrimmedAt(cs, to, a, n, room);
    var j :| IsAt(cs, j, a) && Trimmed(cs, to, j, n, room);
    FreedTrimmed(cs, to, i, j, n, room);
  }

  /** A block that finds room with its neighbours. */
  lemma RefitsIn(b: seq<Block>, end: nat, cursor: nat, i: nat, n: nat, cs: seq<Block>, a: nat, room: int)
    requires i < |b| && TrimmedAt(cs, end, a, n, room)
    requires Cap(b, end, i) <= WithNext(b, end, i) <= WithAll(b, end, i)
    requires var c := Aligned(n + GUARD);
             || (c <= Cap(b, end, i) && a == b[i].at && room == Cap(b, end, i))
             || (Cap(b, end, i) < c <= WithNext(b, end, i) && a == b[i].at && room == WithNext(b, end, i))
             || (WithNext(b, end, i) < c <= WithAll(b, end, i) && PrevFree(b, i) && a == b[i - 1].at && room == WithAll(b, end, i))
    ensures Refitted(b, end, cursor, i, n, cs, end, a)
  {
  }

  lemma RefitsAway(b: seq<Block>, end: nat, cursor: nat, i: nat, n: nat, cs: seq<Block>, to: nat, a: nat)
    requires i < |b| && Aligned(n + GUARD) > WithAll(b, end, i) && Placed(b, end, cursor, n, cs, to, a)
    requires Cap(b, end, i) <= WithNext(b, end, i) <= WithAll(b, end, i)
    ensures Refitted(b, end, cursor, i, n, cs, to, a)
  {
  }

  lemma RefittedIsAt(b: seq<Block>, end: nat, cursor: nat, i: nat, x: nat, n: nat, cs: seq<Block>, to: nat, a: nat)
    requires IsAt(b, i, x) && Refitted(b, end, cursor, i, n, cs, to, a)
    ensures RefittedAt(b, end, cursor, x, n, cs, to, a)
  {
  }

  lemma AtIndex(bs: seq<Block>, i: nat, a: nat)
    requires IsAt(bs, i, a)
    ensures i < |bs| && bs[i].at == a
  {
  }

  lemma FitMeans(bs: seq<Block>, brk: nat, i: nat, c: nat)
    requires i < |bs| && Fits(bs, brk, i, c)
    ensures !NoFit(bs, brk, c) && bs[i].size == 0 && Cap(bs, brk, i) >= c
  {
  }

  lemma KeepsSame(bs: seq<Block>, m: Ram)
    ensures KeepsUser(bs, m, m) && SameSizes(bs, bs)
  {
  }

  lemma PageIsWord(v: nat)
    ensures v % PAGE_SIZE == 0 ==> v % ALIGNMENT == 0
  {
  }

  lemma SizeFits(bs: seq<Block>, start: nat, brk: nat, i: nat)
    requires Tiled(bs, start, brk) && i < |bs|
    ensures bs[i].size <= Cap(bs, brk, i) && bs[i].at > 0
  {
    assert FineAt(bs, brk, i);
  }

  lemma TakenSize(bs: seq<Block>, m: Ram, cs: seq<Block>, r: Ram, p: nat)
    requires Taken(bs, m, cs, r, p)
    ensures |r| == |m|
  {
  }

  lemma WriteInside(bs: seq<Block>, start: nat, brk: nat, i: nat)
    requires Tiled(bs, start, brk) && i < |bs|
    ensures WriteEnd(bs, brk, i) <= brk
  {
    assert FineAt(bs, brk, i);
    Inside(bs, start, brk, i);
  }

  /** The first bytes of a block in use are kept when all blocks in use keep their bytes. */
  lemma SameBytes(bs: seq<Block>, m: Ram, r: Ram, start: nat, brk: nat, i: nat, n: nat)
    requires Tiled(bs, start, brk) && brk <= |m| && |r| == |m| && i < |bs| && bs[i].size > 0 && KeepsUser(bs, m, r)
    requires SizeAt(bs, bs[i].at) == bs[i].size
    ensures SameStart(m, r, bs[i].at + NS, bs[i].at + NS, Min(bs[i].size, n))
    ensures SameStart(m, r, bs[i].at + NS, bs[i].at + NS, bs[i].size)
  {
    hide SizeAt, Tiled, User;
    BlockEnds(bs, m, start, brk, i);
    UserPrefix(m, r, bs[i].at, bs[i].size);
    ShorterStart(m, r, bs[i].at + NS, bs[i].size, Min(bs[i].size, n));
  }

  lemma ShorterStart(m: Ram, r: Ram, p: nat, n: nat, k: nat)
    requires p + n <= |m| == |r| && r[p..p + n] == m[p..p + n] && k <= n
    ensures SameStart(m, r, p, p, k)
  {
    assert m[p..p + k] == m[p..p + n][..k] && r[p..p + k] == r[p..p + n][..k];
  }

  /** The room gained by merging with the free previous block. */
  lemma MergeRoom(bs: seq<Block>, start: nat, brk: nat, i: nat, c: nat)
    requires Tiled(bs, start, brk) && PrevFree(bs, i) && c <= WithAll(bs, brk, i)
    ensures FreedIndex(bs, i) == i - 1 && i - 1 < |Freed(bs, i)|
    ensures IsAt(Freed(bs, i), i - 1, bs[i - 1].at) && Cap(Freed(bs, i), brk, i - 1) == WithAll(bs, brk, i) >= c
    ensures Tiled(Freed(bs, i), start, brk)
    ensures bs[i].at + NS + bs[i].size <= brk
    ensures bs[i - 1].at + NS + bs[i].size <= End(Freed(bs, i), brk, i - 1)
  {
    FreedRoom(bs, start, brk, i);
    FreedBlocks(bs, start, brk, i);
    SizeFits(bs, start, brk, i);
    Inside(bs, start, brk, i);
    CapAligned(bs, start, brk, i - 1);
    if i + 1 < |bs| {
      CapAligned(bs, start, brk, i + 1);
    }
  }

  lemma SameRam(m: Ram, r: Ram, p: nat, q: nat, n: nat)
    requires SameStart(m, r, p, q, n)
    ensures q + n <= |r|
  {
  }

  lemma SliceIsStart(m: Ram, r: Ram, p: nat, n: nat)
    requires p + n <= |m| == |r| && r[p..p + n] == m[p..p + n]
    ensures SameStart(m, r, p, p, n)
  {
  }

  lemma AddedFacts(bs: seq<Block>, m: Ram, cs: seq<Block>, r: Ram, p: nat, n: nat, a: nat)
    requires Added(bs, m, cs, r, p, n) && SizeAt(bs, a) > 0
    ensures p >= NS && SizeAt(cs, p - NS) == n && a != p - NS && SizeAt(cs, a) == SizeAt(bs, a)
    ensures KeepsUser(bs, m, r) && |r| == |m|
  {
  }

  lemma TakenFacts(bs: seq<Block>, m: Ram, cs: seq<Block>, r: Ram, p: nat, a: nat)
    requires Taken(bs, m, cs, r, p) && a != p - NS
    ensures SizeAt(cs, a) == SizeAt(bs, a) && |r| == |m|
  {
  }

  lemma BlockEnds(bs: seq<Block>, m: Ram, start: nat, brk: nat, i: nat)
    requires Tiled(bs, start, brk) && i < |bs| && bs[i].size > 0 && brk <= |m|
    ensures bs[i].at + NS + bs[i].size + GUARD <= |m|
  {
    assert FineAt(bs, brk, i);
    Inside(bs, start, brk, i);
  }

  lemma UsedRoom(bs: seq<Block>, start: nat, brk: nat, i: nat, n: nat)
    requires Tiled(bs, start, brk) && i < |bs| && bs[i].size > 0
    ensures Aligned(n + GUARD) > Cap(bs, brk, i) ==> bs[i].size <= n
  {
    assert FineAt(bs, brk, i);
    CapAligned(bs, start, brk, i);
    if Aligned(n + GUARD) > Cap(bs, brk, i) {
      AlignedOver(n + GUARD, Cap(bs, brk, i));
    }
  }

  lemma AlignedOver(v: nat, c: int)
    requires c % ALIGNMENT == 0 && Aligned(v) > c
    ensures v > c
  {
  }

  function Zeros(n: nat): (z: seq<Byte>)
    ensures |z| == n
  {
    seq(n, _ => 0)
  }

  lemma PutZeros(m: Ram, a: nat, n: nat)
    requires a + n <= |m|
    ensures forall k :: a <= k < a + n ==> Put(m, a, Zeros(n))[k] == 0
  {
    forall k: nat | a <= k < a + n
      ensures Put(m, a, Zeros(n))[k] == 0
    {
      PutAt(m, a, Zeros(n), k);
    }
  }

  lemma AtIndexOf(bs: seq<Block>, i: nat, a: nat)
    requires i < |bs| && bs[i].at == a
    ensures IsAt(bs, i, a)
  {
  }

  lemma AddedSize(bs: seq<Block>, m: Ram, cs: seq<Block>, r: Ram, p: nat, n: nat)
    requires Added(bs, m, cs, r, p, n)
    ensures p >= NS && SizeAt(cs, p - NS) == n
  {
  }

  lemma MovedSize(bs: seq<Block>, m: Ram, cs: seq<Block>, r: Ram, p: nat, q: nat, n: nat)
    requires Moved(bs, m, cs, r, p, q, n)
    ensures q >= NS && SizeAt(cs, q - NS) == n
  {
  }

  lemma AddedThenWritten(bs: seq<Block>, m: Ram, cs: seq<Block>, r: Ram, t: Ram, p: nat, n: nat)
    requires Added(bs, m, cs, r, p, n) && KeepsBut(cs, r, t, p - NS) && |t| == |r|
    ensures Added(bs, m, cs, t, p, n)
  {
    hide User, SizeAt;
    forall a: nat | SizeAt(bs, a) > 0
      ensures User(t, a, SizeAt(bs, a)) == User(m, a, SizeAt(bs, a))
    {
      assert SizeAt(cs, a) == SizeAt(bs, a);
    }
  }

  function Max(a: nat, b: nat): nat {
    if a > b then a else b
  }

  lemma AddedSizes(bs: seq<Block>, i: nat, x: nat)
    requires i <= |bs|
    ensures SameSizes(Inserted(bs, i, Block(x, 0)), bs)
  {
    forall a
      ensures SizeAt(Inserted(bs, i, Block(x, 0)), a) == SizeAt(bs, a)
    {
      InsertedSizes(bs, i, x, a);
    }
  }

  lemma InsideUse(bs: seq<Block>, start: nat, brk: nat, i: nat, n: nat)
    requires Tiled(bs, start, brk) && i < |bs| && n + GUARD <= Cap(bs, brk, i)
    ensures bs[i].at + NS + n + GUARD <= brk
  {
    Inside(bs, start, brk, i);
  }

  lemma CoalescedHeaders(bs: seq<Block>, i: nat)
    requires i < |bs|
    ensures Headers(Coalesced(bs, i)) <= Headers(bs)
  {
    if i + 1 < |bs| {
      DroppedHeaders(bs, i + 1);
    }
  }

  lemma CoalescedFront(bs: seq<Block>, i: nat)
    requires i < |bs|
    ensures i < |Coalesced(bs, i)|
    ensures forall j :: 0 <= j <= i ==> Coalesced(bs, i)[j] == bs[j]
  {
  }

  lemma InsertedAt(bs: seq<Block>, i: nat, b: Block)
    requires i <= |bs|
    ensures Inserted(bs, i, b)[i] == b && (i > 0 ==> Inserted(bs, i, b)[i - 1] == bs[i - 1])
  {
  }
}
