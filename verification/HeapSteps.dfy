/** What the allocator's operations do to the blocks, and to the bytes of the blocks in use. */
module HeapSteps {
  import opened Words
  import opened HeapRam
  import opened HeapBlocks
  import opened HeapLinks

  ghost predicate GuardBehind(m: Ram, a: nat, n: nat) {
    a + NS + n + GUARD <= |m| && Load32(m, a + NS + n) == GUARD_VALUE
  }

  /** Every block in use ends in an intact guard. */
  ghost predicate Guarded(m: Ram, bs: seq<Block>) {
    forall a :: SizeAt(bs, a) > 0 ==> GuardBehind(m, a, SizeAt(bs, a))
  }

  /** Memory and blocks belong together. */
  ghost predicate InOrder(m: Ram, bs: seq<Block>, start: nat, brk: nat) {
    Tiled(bs, start, brk) && brk <= |m| && Linked(m, bs) && Guarded(m, bs)
  }

  ghost predicate SameSizes(bs: seq<Block>, cs: seq<Block>) {
    forall a :: SizeAt(bs, a) == SizeAt(cs, a)
  }

  lemma GuardKept(m: Ram, r: Ram, a: nat, n: nat)
    requires |m| == |r| && GuardBehind(m, a, n) && User(r, a, n) == User(m, a, n)
    ensures GuardBehind(r, a, n)
  {
    var lo := a + NS;
    assert m[lo + n..lo + n + 4] == User(m, a, n)[n..n + 4];
    assert r[lo + n..lo + n + 4] == User(r, a, n)[n..n + 4];
    LoadSlice(m, r, lo + n);
  }

  lemma GuardsKept(m: Ram, r: Ram, bs: seq<Block>)
    requires |m| == |r| && Guarded(m, bs) && KeepsUser(bs, m, r)
    ensures Guarded(r, bs)
  {
    forall a: nat | SizeAt(bs, a) > 0
      ensures GuardBehind(r, a, SizeAt(bs, a))
    {
      GuardKept(m, r, a, SizeAt(bs, a));
    }
  }

  /** Writing headers only keeps guards and user bytes. */
  lemma HeadersKeep(m: Ram, r: Ram, bs: seq<Block>, start: nat, brk: nat)
    requires Tiled(bs, start, brk) && brk <= |m| && Guarded(m, bs) && Only(m, r, Headers(bs))
    ensures Guarded(r, bs) && KeepsUser(bs, m, r)
  {
    HeadersKeepUser(bs, start, brk, m, r);
    GuardsKept(m, r, bs);
  }

  lemma GuardsSame(m: Ram, bs: seq<Block>, cs: seq<Block>)
    requires Guarded(m, bs) && SameSizes(cs, bs)
    ensures Guarded(m, cs)
  {
    forall a: nat | SizeAt(cs, a) > 0
      ensures GuardBehind(m, a, SizeAt(cs, a))
    {
      assert SizeAt(bs, a) == SizeAt(cs, a);
    }
  }

  // ---------- coalescing ----------

  lemma CoalesceSteps(m: Ram, bs: seq<Block>, start: nat, brk: nat, i: nat)
    requires InOrder(m, bs, start, brk) && i + 1 < |bs| && bs[i + 1].size == 0
    ensures bs[i].at + NS <= |m| && bs[i + 1].at + NS <= |m| && bs[NextIndex(i + 1, |bs|)].at + NS <= |m|
    ensures var r := Unlinked(m, bs[i].at, bs[i + 1].at, bs[NextIndex(i + 1, |bs|)].at);
            InOrder(r, Dropped(bs, i + 1), start, brk) && Only(m, r, Headers(bs))
    ensures SameSizes(Dropped(bs, i + 1), bs)
  {
    hide Fine, NodeAt, Unlinked, SizeAt;
    UnlinkLinks(m, bs, start, brk, i + 1);
    var nx := NextIndex(i + 1, |bs|);
    var r := Unlinked(m, bs[i].at, bs[i + 1].at, bs[nx].at);
    UnlinkedOnly(m, bs[i].at, bs[i + 1].at, bs[nx].at);
    HeaderIn(bs, i);
    HeaderIn(bs, i + 1);
    HeaderIn(bs, nx);
    OnlyMore(m, r, Range(bs[i].at, NS) + Range(bs[nx].at, NS) + Range(bs[i + 1].at, NS), Headers(bs));
    DroppedTiles(bs, start, brk, i + 1);
    HeadersKeep(m, r, bs, start, brk);
    forall a
      ensures SizeAt(Dropped(bs, i + 1), a) == SizeAt(bs, a)
    {
      DroppedSizes(bs, i + 1, a);
    }
    GuardsSame(r, bs, Dropped(bs, i + 1));
  }

  lemma DroppedHeaders(bs: seq<Block>, i: nat)
    requires i < |bs|
    ensures Headers(Dropped(bs, i)) <= Headers(bs)
  {
    var cs := Dropped(bs, i);
    forall k: nat | InHeader(cs, k)
      ensures InHeader(bs, k)
    {
      var j :| 0 <= j < |cs| && In(k, cs[j].at, NS);
      assert In(k, bs[if j < i then j else j + 1].at, NS);
    }
  }

  lemma SizedHeaders(bs: seq<Block>, i: nat, n: nat)
    requires i < |bs|
    ensures Headers(Sized(bs, i, n)) == Headers(bs)
  {
    var cs := Sized(bs, i, n);
    forall k: nat | InHeader(cs, k)
      ensures InHeader(bs, k)
    {
      var j :| 0 <= j < |cs| && In(k, cs[j].at, NS);
      assert In(k, bs[j].at, NS);
    }
    forall k: nat | InHeader(bs, k)
      ensures InHeader(cs, k)
    {
      var j :| 0 <= j < |bs| && In(k, bs[j].at, NS);
      assert In(k, cs[j].at, NS);
    }
  }

  // ---------- freeing ----------

  /** The blocks after block `i` was freed and merged with its free neighbours. */
  ghost function Freed(bs: seq<Block>, i: nat): (r: seq<Block>)
    requires i < |bs|
  {
    var cs := Coalesced(Sized(bs, i, 0), i);
    if i > 0 && cs[i - 1].size == 0 then Dropped(cs, i) else cs
  }

  /** Where the freed room is found in the list. */
  ghost function FreedIndex(bs: seq<Block>, i: nat): (j: nat)
    requires i < |bs|
    ensures j < |Freed(bs, i)|
  {
    if i > 0 && bs[i - 1].size == 0 then i - 1 else i
  }

  lemma FreedBlocks(bs: seq<Block>, start: nat, brk: nat, i: nat)
    requires Tiled(bs, start, brk) && i < |bs|
    ensures Tiled(Freed(bs, i), start, brk)
  {
    hide Fine;
    var b := Sized(bs, i, 0);
    SizedTiles(bs, start, brk, i, 0);
    CoalescedTiles(b, start, brk, i);
    var c := Coalesced(b, i);
    if i > 0 && c[i - 1].size == 0 {
      DroppedTiles(c, start, brk, i);
    }
  }

  /** No two free neighbours, except perhaps at block `i`. */
  ghost predicate MergedBut(bs: seq<Block>, i: nat) {
    forall j :: 0 <= j < |bs| - 1 && j != i && j + 1 != i ==> bs[j].size > 0 || bs[j + 1].size > 0
  }

  /** No two free neighbours, except perhaps block `i` and the one in front of it. */
  ghost predicate MergedBehind(bs: seq<Block>, i: nat) {
    forall j :: 0 <= j < |bs| - 1 && j + 1 != i ==> bs[j].size > 0 || bs[j + 1].size > 0
  }

  lemma CoalescedMerged(bs: seq<Block>, i: nat)
    requires i < |bs| && MergedBut(bs, i)
    ensures MergedBehind(Coalesced(bs, i), i) && i < |Coalesced(bs, i)|
    ensures forall j :: 0 <= j <= i ==> Coalesced(bs, i)[j] == bs[j]
  {
    var cs := Coalesced(bs, i);
    forall j | 0 <= j < |cs| - 1 && j + 1 != i
      ensures cs[j].size > 0 || cs[j + 1].size > 0
    {
      if |cs| < |bs| {
        assert cs[j] == bs[if j <= i then j else j + 1] && cs[j + 1] == bs[if j < i then j + 1 else j + 2];
        assert i + 2 < |bs| ==> bs[i + 1].size > 0 || bs[i + 2].size > 0;
      }
    }
  }

  lemma DroppedMerged(bs: seq<Block>, i: nat)
    requires 0 < i < |bs| && MergedBehind(bs, i) && bs[i].size == 0
    ensures Merged(Dropped(bs, i))
  {
    var cs := Dropped(bs, i);
    forall j | 0 <= j < |cs| - 1
      ensures cs[j].size > 0 || cs[j + 1].size > 0
    {
      assert cs[j] == bs[if j < i then j else j + 1] && cs[j + 1] == bs[if j + 1 < i then j + 1 else j + 2];
      assert i + 1 < |bs| ==> bs[i].size > 0 || bs[i + 1].size > 0;
    }
  }

  lemma FreedMerged(bs: seq<Block>, i: nat)
    requires Merged(bs) && i < |bs|
    ensures Merged(Freed(bs, i)) && Freed(bs, i)[FreedIndex(bs, i)].size == 0
  {
    var b := Sized(bs, i, 0);
    CoalescedMerged(b, i);
    var c := Coalesced(b, i);
    hide Coalesced;
    if i > 0 && c[i - 1].size == 0 {
      DroppedMerged(c, i);
    }
  }

  lemma FreedSizes(bs: seq<Block>, start: nat, brk: nat, i: nat, a: nat)
    requires Tiled(bs, start, brk) && i < |bs|
    ensures SizeAt(Freed(bs, i), a) == if a == bs[i].at then 0 else SizeAt(bs, a)
  {
    hide Fine, SizeAt, Tiled;
    var b := Sized(bs, i, 0);
    SizedSizes(bs, start, brk, i, 0, a);
    CoalescedSizes(b, i, a);
    var c := Coalesced(b, i);
    if i > 0 && c[i - 1].size == 0 {
      DroppedSizes(c, i, a);
    }
  }

  /** Freed room is all of the block and of its free neighbours. */
  lemma FreedRoom(bs: seq<Block>, start: nat, brk: nat, i: nat)
    requires Tiled(bs, start, brk) && i < |bs|
    ensures var j := FreedIndex(bs, i);
            Freed(bs, i)[j].at == bs[j].at &&
            Cap(Freed(bs, i), brk, j) ==
              (if i > 0 && bs[i - 1].size == 0 then Cap(bs, brk, i - 1) + NS else 0) + Cap(bs, brk, i)
              + if i + 1 < |bs| && bs[i + 1].size == 0 then NS + Cap(bs, brk, i + 1) else 0
  {
    hide Fine;
    var b := Sized(bs, i, 0);
    SizedTiles(bs, start, brk, i, 0);
    assert i > 0 ==> Cap(b, brk, i - 1) == Cap(bs, brk, i - 1);
    assert i + 1 < |bs| ==> Cap(b, brk, i + 1) == Cap(bs, brk, i + 1);
    CoalescedTiles(b, start, brk, i);
    var c := Coalesced(b, i);
    if i + 1 < |b| && b[i + 1].size == 0 {
      DroppedTiles(b, start, brk, i + 1);
    }
    assert Cap(c, brk, i) == Cap(bs, brk, i) + if i + 1 < |bs| && bs[i + 1].size == 0 then NS + Cap(bs, brk, i + 1) else 0;
    assert i > 0 ==> Cap(c, brk, i - 1) == Cap(bs, brk, i - 1);
    if i > 0 && c[i - 1].size == 0 {
      DroppedTiles(c, start, brk, i);
    }
  }

  // ---------- putting a block to use ----------

  /** The blocks after `n` bytes of block `i` were put to use with room for `c`: what is left over
      becomes a free block if it is large enough, merged with a free one behind it. */
  ghost function Resized(bs: seq<Block>, brk: nat, i: nat, n: nat, c: nat): (r: seq<Block>)
    requires i < |bs|
  {
    var b := Sized(bs, i, n);
    if Cap(b, brk, i) - c >= NS + FREENODE_MIN_SIZE + GUARD
    then Coalesced(Inserted(b, i + 1, Block(bs[i].at + NS + c, 0)), i + 1)
    else b
  }

  lemma SplitFits(bs: seq<Block>, start: nat, brk: nat, i: nat, n: nat, c: nat)
    requires Tiled(bs, start, brk) && i < |bs| && 0 < n && n + GUARD <= c && c % ALIGNMENT == 0
    requires c >= FREENODE_MIN_SIZE + GUARD
    ensures Fine(Block(bs[i].at, n), bs[i].at + NS + c) && (bs[i].at + NS + c) % ALIGNMENT == 0
  {
    assert FineAt(bs, brk, i);
  }

  lemma ResizedBlocks(bs: seq<Block>, start: nat, brk: nat, i: nat, n: nat, c: nat)
    requires Tiled(bs, start, brk) && i < |bs| && 0 < n && n + GUARD <= c <= Cap(bs, brk, i) && c % ALIGNMENT == 0
    requires c >= FREENODE_MIN_SIZE + GUARD
    ensures Tiled(Resized(bs, brk, i, n, c), start, brk)
    ensures i < |Resized(bs, brk, i, n, c)| && Resized(bs, brk, i, n, c)[i] == Block(bs[i].at, n)
    ensures Cap(Resized(bs, brk, i, n, c), brk, i) >= c
    ensures Cap(bs, brk, i) - c >= NS + FREENODE_MIN_SIZE + GUARD ==>
              Tiled(Inserted(Sized(bs, i, n), i + 1, Block(bs[i].at + NS + c, 0)), start, brk)
  {
    hide Fine, Tiled;
    SizedTiles(bs, start, brk, i, n);
    SplitFits(bs, start, brk, i, n, c);
    var b := Sized(bs, i, n);
    if Cap(b, brk, i) - c >= NS + FREENODE_MIN_SIZE + GUARD {
      var x := bs[i].at + NS + c;
      InsertedTiles(b, start, brk, i + 1, x);
      CoalescedTiles(Inserted(b, i + 1, Block(x, 0)), start, brk, i + 1);
    }
  }

  lemma ResizedSizes(bs: seq<Block>, start: nat, brk: nat, i: nat, n: nat, c: nat, a: nat)
    requires Tiled(bs, start, brk) && i < |bs|
    ensures SizeAt(Resized(bs, brk, i, n, c), a) == if a == bs[i].at then n else SizeAt(bs, a)
  {
    hide Fine, SizeAt, Tiled;
    var b := Sized(bs, i, n);
    SizedSizes(bs, start, brk, i, n, a);
    if Cap(b, brk, i) - c >= NS + FREENODE_MIN_SIZE + GUARD {
      var x := bs[i].at + NS + c;
      InsertedSizes(b, i + 1, x, a);
      CoalescedSizes(Inserted(b, i + 1, Block(x, 0)), i + 1, a);
    }
  }

  lemma ResizedMerged(bs: seq<Block>, brk: nat, i: nat, n: nat, c: nat)
    requires i < |bs| && MergedBut(bs, i) && n > 0
    ensures Merged(Resized(bs, brk, i, n, c))
  {
    var b := Sized(bs, i, n);
    assert Merged(b);
  }

  // ---------- marking a block as used ----------

  /** All blocks in use keep their bytes, except perhaps the one at `x`. */
  ghost predicate KeepsBut(bs: seq<Block>, m: Ram, r: Ram, x: nat) {
    forall a :: SizeAt(bs, a) > 0 && a != x ==> User(r, a, SizeAt(bs, a)) == User(m, a, SizeAt(bs, a))
  }

  /** The stores that mark node `a` as `n` bytes in use and set both its guards. */
  function MarkedUsed(m: Ram, a: nat, n: nat): (r: Ram)
    requires a + NS + n + GUARD <= |m|
    ensures |r| == |m|
  {
    Store32(SetFirstGuard(SetSize(m, a, n), a), a + NS + n, GUARD_VALUE)
  }

  lemma MarkedLinks(m: Ram, bs: seq<Block>, start: nat, brk: nat, i: nat, n: nat)
    requires i < |bs| && Tiled(bs, start, brk) && brk <= |m| <= WORD_LIMIT && n < WORD_LIMIT
    requires bs[i].at + NS <= |m| && Linked(SetFirstGuard(m, bs[i].at), bs)
    ensures Linked(SetFirstGuard(SetSize(m, bs[i].at, n), bs[i].at), Sized(bs, i, n))
  {
    hide NodeAt, Store32, Fine;
    var g, cs, at := SetFirstGuard(m, bs[i].at), Sized(bs, i, n), bs[i].at;
    forall j | 0 <= j < |bs|
      ensures LinkedAt(SetFirstGuard(SetSize(m, at, n), at), cs, j)
    {
      assert LinkedAt(g, bs, j);
      BlockHeaders(bs, start, brk, i, j);
      StoreField(m, at, 12, GUARD_VALUE, bs[j].at);
      StoreField(m, at, 8, n, bs[j].at);
      StoreField(SetSize(m, at, n), at, 12, GUARD_VALUE, bs[j].at);
    }
  }

  lemma MarkedOnly(m: Ram, a: nat, n: nat)
    requires a + NS + n + GUARD <= |m|
    ensures Only(m, SetFirstGuard(SetSize(m, a, n), a), Range(a, NS))
    ensures Only(m, MarkedUsed(m, a, n), Range(a, NS) + Range(a + NS + n, GUARD))
  {
    hide Store32, Only;
    var r1 := SetSize(m, a, n);
    var r2 := SetFirstGuard(r1, a);
    StoreOnly(m, a, 8, n);
    StoreOnly(r1, a, 12, GUARD_VALUE);
    OnlyTwice(m, r1, r2, Range(a, NS), Range(a, NS));
    assert Range(a, NS) + Range(a, NS) == Range(a, NS);
    WordOnly(r2, a + NS + n, GUARD_VALUE);
    OnlyTwice(m, r2, MarkedUsed(m, a, n), Range(a, NS), Range(a + NS + n, GUARD));
  }

  lemma WordOnly(m: Ram, a: nat, v: nat)
    requires a + 4 <= |m|
    ensures Only(m, Store32(m, a, v), Range(a, 4))
  {
    forall k | 0 <= k < |m| && k !in Range(a, 4)
      ensures Store32(m, a, v)[k] == m[k]
    {
      PutAt(m, a, Bytes32(v), k);
    }
  }

  /** Bytes of one block are no bytes of another block in use. */
  lemma OwnBytes(bs: seq<Block>, start: nat, brk: nat, i: nat, m: Ram, r: Ram, lo: nat, n: nat)
    requires Tiled(bs, start, brk) && i < |bs| && brk <= |m| && bs[i].at <= lo && lo + n <= End(bs, brk, i)
    requires Only(m, r, Range(bs[i].at, NS) + Range(lo, n))
    ensures KeepsBut(bs, m, r, bs[i].at)
  {
    forall a: nat | SizeAt(bs, a) > 0 && a != bs[i].at
      ensures User(r, a, SizeAt(bs, a)) == User(m, a, SizeAt(bs, a))
    {
      var j := UsedIndex(bs, start, brk, a);
      assert FineAt(bs, brk, j) && FineAt(bs, brk, i);
      BlocksApart(bs, start, brk, i, j);
      Inside(bs, start, brk, j);
      SliceKept(m, r, Range(bs[i].at, NS) + Range(lo, n), a + NS, bs[j].size + GUARD);
    }
  }

  /** A block marked as used: the list is in order, all other blocks in use keep their bytes, and
      so do the first `n` bytes of this one. */
  lemma MarkSteps(m: Ram, bs: seq<Block>, start: nat, brk: nat, i: nat, n: nat)
    requires i < |bs| && Tiled(bs, start, brk) && brk <= |m| && bs[i].at + NS <= |m|
    requires InOrder(SetFirstGuard(m, bs[i].at), bs, start, brk) && 0 < n && n + GUARD <= Cap(bs, brk, i)
    ensures bs[i].at + NS + n + GUARD <= |m|
    ensures InOrder(MarkedUsed(m, bs[i].at, n), Sized(bs, i, n), start, brk)
    ensures KeepsBut(bs, m, MarkedUsed(m, bs[i].at, n), bs[i].at)
    ensures var lo := bs[i].at + NS; MarkedUsed(m, bs[i].at, n)[lo..lo + n] == m[lo..lo + n]
  {
    assert |m| <= WORD_LIMIT;
    hide Fine, NodeAt, Store32, Linked, SizeAt;
    var at, cs := bs[i].at, Sized(bs, i, n);
    Inside(bs, start, brk, i);
    var r2 := SetFirstGuard(SetSize(m, at, n), at);
    var r3 := MarkedUsed(m, at, n);
    MarkedLinks(m, bs, start, brk, i, n);
    SizedTiles(bs, start, brk, i, n);
    MarkedOnly(m, at, n);
    WordOnly(r2, at + NS + n, GUARD_VALUE);
    forall k | k in Headers(cs)
      ensures k !in Range(at + NS + n, GUARD)
    {
      if In(k, at + NS + n, GUARD) {
        HeaderNotUser(cs, start, brk, i, k);
      }
    }
    LinksElsewhere(r2, r3, cs, Range(at + NS + n, GUARD));
    OwnBytes(bs, start, brk, i, m, r3, at + NS + n, GUARD);
    SliceKept(m, r3, Range(at, NS) + Range(at + NS + n, GUARD), at + NS, n);
    MarkGuards(m, bs, start, brk, i, n);
  }

  lemma MarkGuards(m: Ram, bs: seq<Block>, start: nat, brk: nat, i: nat, n: nat)
    requires i < |bs| && Tiled(bs, start, brk) && brk <= |m| && bs[i].at + NS + n + GUARD <= |m|
    requires Guarded(SetFirstGuard(m, bs[i].at), bs) && 0 < n
    requires KeepsBut(bs, m, MarkedUsed(m, bs[i].at, n), bs[i].at)
    ensures Guarded(MarkedUsed(m, bs[i].at, n), Sized(bs, i, n))
  {
    var at, r := bs[i].at, MarkedUsed(m, bs[i].at, n);
    var g := SetFirstGuard(m, at);
    Inside(bs, start, brk, i);
    StoreOnly(m, at, 12, GUARD_VALUE);
    OnlyMore(m, g, Range(at, NS), Range(at, NS) + Range(at, 0));
    OwnBytes(bs, start, brk, i, m, g, at, 0);
    LoadStored(SetFirstGuard(SetSize(m, at, n), at), at + NS + n, GUARD_VALUE);
    hide NodeAt, Store32, MarkedUsed, SizeAt;
    forall a: nat | SizeAt(Sized(bs, i, n), a) > 0
      ensures GuardBehind(r, a, SizeAt(Sized(bs, i, n), a))
    {
      SizedSizes(bs, start, brk, i, n, a);
      if a != at {
        GuardKept(g, r, a, SizeAt(bs, a));
      } else {
        assert GuardBehind(r, at, n);
      }
    }
  }

  // ---------- a new free node ----------

  /** The stores that make a free node's size and guard. */
  function NewFree(m: Ram, x: nat): (r: Ram)
    requires x + NS <= |m|
    ensures |r| == |m|
  {
    SetFirstGuard(SetSize(m, x, 0), x)
  }

  lemma NewBlockApart(bs: seq<Block>, start: nat, brk: nat, i: nat, x: nat, k: nat)
    requires i <= |bs| && Tiled(Inserted(bs, i, Block(x, 0)), start, brk) && k in Headers(bs)
    ensures k !in Range(x, NS)
  {
    var cs := Inserted(bs, i, Block(x, 0));
    var j :| 0 <= j < |bs| && In(k, bs[j].at, NS);
    var l := if j < i then j else j + 1;
    assert cs[l] == bs[j] && cs[i] == Block(x, 0);
    HeadersApart(cs, start, brk, l, i);
  }

  /** Writing the header of a block that is not in the list yet. */
  lemma NewHeaderSteps(m: Ram, r: Ram, bs: seq<Block>, start: nat, brk: nat, i: nat, x: nat)
    requires InOrder(m, bs, start, brk) && i <= |bs| && Tiled(Inserted(bs, i, Block(x, 0)), start, brk)
    requires Only(m, r, Range(x, NS))
    ensures InOrder(r, bs, start, brk) && KeepsUser(bs, m, r)
  {
    hide Fine, SizeAt, Linked;
    var cs := Inserted(bs, i, Block(x, 0));
    assert cs[i] == Block(x, 0);
    HeaderIn(cs, i);
    OnlyMore(m, r, Range(x, NS), Headers(cs));
    forall a
      ensures SizeAt(cs, a) == SizeAt(bs, a)
    {
      InsertedSizes(bs, i, x, a);
    }
    HeadersKeepUser(cs, start, brk, m, r);
    GuardsKept(m, r, bs);
    forall k | k in Headers(bs)
      ensures k !in Range(x, NS)
    {
      NewBlockApart(bs, start, brk, i, x, k);
    }
    LinksElsewhere(m, r, bs, Range(x, NS));
  }

  lemma NewFreeHeader(m: Ram, x: nat)
    requires x + NS <= |m| <= WORD_LIMIT
    ensures NodeAt(SetSize(m, x, 0), x).size == 0 && Only(m, SetSize(m, x, 0), Range(x, NS))
    ensures NodeAt(NewFree(m, x), x).size == 0 && NodeAt(NewFree(m, x), x).guard == GUARD_VALUE
    ensures Only(m, NewFree(m, x), Range(x, NS))
  {
    hide NodeAt, Store32;
    StoreField(m, x, 8, 0, x);
    StoreField(SetSize(m, x, 0), x, 12, GUARD_VALUE, x);
    StoreOnly(m, x, 8, 0);
    StoreOnly(SetSize(m, x, 0), x, 12, GUARD_VALUE);
  }

  /** Linking a free node in behind block `i`; its guard may still be missing. */
  lemma SpliceSteps(m: Ram, bs: seq<Block>, start: nat, brk: nat, i: nat, x: nat)
    requires InOrder(m, bs, start, brk) && i < |bs| && Tiled(Inserted(bs, i + 1, Block(x, 0)), start, brk)
    requires x + NS <= |m| && NodeAt(m, x).size == 0
    ensures bs[i].at + NS <= |m| && bs[NextIndex(i, |bs|)].at + NS <= |m|
    ensures var r, cs := Spliced(m, bs[i].at, bs[NextIndex(i, |bs|)].at, x), Inserted(bs, i + 1, Block(x, 0));
            InOrder(SetFirstGuard(r, x), cs, start, brk) && Only(m, r, Headers(cs)) && SameSizes(cs, bs)
    ensures NodeAt(Spliced(m, bs[i].at, bs[NextIndex(i, |bs|)].at, x), x).guard == NodeAt(m, x).guard
  {
    hide Fine, SizeAt, NodeAt, Store32, Spliced;
    SpliceLinks(m, bs, start, brk, i, x);
    var nx, cs := NextIndex(i, |bs|), Inserted(bs, i + 1, Block(x, 0));
    var r := Spliced(m, bs[i].at, bs[nx].at, x);
    var inx := if i + 1 == |bs| then 0 else i + 2;
    assert cs[i] == bs[i] && cs[i + 1] == Block(x, 0) && cs[inx] == bs[nx];
    HeaderIn(cs, i);
    HeaderIn(cs, i + 1);
    HeaderIn(cs, inx);
    SplicedOnly(m, bs[i].at, bs[nx].at, x);
    OnlyMore(m, r, Range(bs[i].at, NS) + Range(bs[nx].at, NS) + Range(x, NS), Headers(cs));
    StoreOnly(r, x, 12, GUARD_VALUE);
    OnlyMore(r, SetFirstGuard(r, x), Range(x, NS), Headers(cs));
    OnlyTwice(m, r, SetFirstGuard(r, x), Headers(cs), Headers(cs));
    assert Headers(cs) + Headers(cs) == Headers(cs);
    forall a
      ensures SizeAt(cs, a) == SizeAt(bs, a)
    {
      InsertedSizes(bs, i + 1, x, a);
    }
    GuardsSame(m, bs, cs);
    HeadersKeep(m, SetFirstGuard(r, x), cs, start, brk);
    BlockHeaders(cs, start, brk, i + 1, i);
    BlockHeaders(cs, start, brk, i + 1, inx);
    SplicedHeader(m, bs[i].at, bs[nx].at, x, x);
  }

  /** With its first guard set already, a list needs no more. */
  lemma GuardAlreadySet(m: Ram, bs: seq<Block>, start: nat, brk: nat, i: nat)
    requires i < |bs| && Tiled(bs, start, brk) && brk <= |m| <= WORD_LIMIT && bs[i].at + NS <= |m|
    requires NodeAt(m, bs[i].at).guard == GUARD_VALUE
    ensures InOrder(SetFirstGuard(m, bs[i].at), bs, start, brk) <==> InOrder(m, bs, start, brk)
  {
    hide Fine, SizeAt, Linked;
    var g := SetFirstGuard(m, bs[i].at);
    StoreOnly(m, bs[i].at, 12, GUARD_VALUE);
    HeaderIn(bs, i);
    OnlyMore(m, g, Range(bs[i].at, NS), Headers(bs));
    OnlyBack(m, g, Headers(bs));
    HeadersKeepUser(bs, start, brk, m, g);
    HeadersKeepUser(bs, start, brk, g, m);
    SameLinks(m, bs, start, brk, i);
    if Guarded(m, bs) {
      GuardsKept(m, g, bs);
    }
    if Guarded(g, bs) {
      GuardsKept(g, m, bs);
    }
  }

  lemma OnlyBack(m: Ram, r: Ram, where: iset<nat>)
    requires Only(m, r, where)
    ensures Only(r, m, where)
  {
  }

  lemma SameLinks(m: Ram, bs: seq<Block>, start: nat, brk: nat, i: nat)
    requires i < |bs| && Tiled(bs, start, brk) && brk <= |m| <= WORD_LIMIT && bs[i].at + NS <= |m|
    requires NodeAt(m, bs[i].at).guard == GUARD_VALUE
    ensures Linked(SetFirstGuard(m, bs[i].at), bs) <==> Linked(m, bs)
  {
    var g := SetFirstGuard(m, bs[i].at);
    hide Fine, NodeAt, Store32;
    forall j | 0 <= j < |bs|
      ensures LinkedAt(g, bs, j) <==> LinkedAt(m, bs, j)
    {
      BlockHeaders(bs, start, brk, i, j);
      BlockFits(bs, start, brk, j);
      StoreField(m, bs[i].at, 12, GUARD_VALUE, bs[j].at);
    }
  }

  // ---------- putting steps together ----------

  /** Marking a block as used and then writing headers only. */
  lemma MarkThenHeaders(bs: seq<Block>, cs: seq<Block>, ds: seq<Block>, start: nat, brk: nat, i: nat, n: nat,
                        m: Ram, r: Ram, t: Ram)
    requires Tiled(bs, start, brk) && i < |bs| && n > 0 && KeepsBut(bs, m, r, bs[i].at)
    requires cs == Sized(bs, i, n) && SameSizes(ds, cs) && Tiled(ds, start, brk) && brk <= |r| && Only(r, t, Headers(ds))
    requires bs[i].at + NS + n + GUARD <= brk
    ensures KeepsBut(bs, m, t, bs[i].at)
    ensures t[bs[i].at + NS..bs[i].at + NS + n] == r[bs[i].at + NS..bs[i].at + NS + n]
  {
    HeadersKeepUser(ds, start, brk, r, t);
    hide User, Only, Fine, Tiled, SizeAt;
    forall a: nat
      ensures SizeAt(ds, a) == if a == bs[i].at then n else SizeAt(bs, a)
    {
      SizedSizes(bs, start, brk, i, n, a);
      assert SizeAt(ds, a) == SizeAt(cs, a);
    }
    assert SizeAt(ds, bs[i].at) == n;
    UserPrefix(r, t, bs[i].at, n);
  }

  lemma UserPrefix(m: Ram, r: Ram, a: nat, n: nat)
    requires |m| == |r| && a + NS + n + GUARD <= |m| && User(r, a, n) == User(m, a, n)
    ensures r[a + NS..a + NS + n] == m[a + NS..a + NS + n]
  {
    assert m[a + NS..a + NS + n] == User(m, a, n)[..n];
    assert r[a + NS..a + NS + n] == User(r, a, n)[..n];
  }

  /** A block marked as free. */
  lemma UnuseSteps(m: Ram, bs: seq<Block>, start: nat, brk: nat, i: nat)
    requires InOrder(m, bs, start, brk) && i < |bs|
    ensures bs[i].at + NS <= |m| && InOrder(SetSize(m, bs[i].at, 0), Sized(bs, i, 0), start, brk)
    ensures Only(m, SetSize(m, bs[i].at, 0), Headers(bs))
  {
    hide NodeAt, Store32, Fine, SizeAt;
    SizeLinks(m, bs, start, brk, i, 0);
    SizedTiles(bs, start, brk, i, 0);
    var r := SetSize(m, bs[i].at, 0);
    StoreOnly(m, bs[i].at, 8, 0);
    HeaderIn(bs, i);
    OnlyMore(m, r, Range(bs[i].at, NS), Headers(bs));
    HeadersKeep(m, r, bs, start, brk);
    forall a: nat | SizeAt(Sized(bs, i, 0), a) > 0
      ensures GuardBehind(r, a, SizeAt(Sized(bs, i, 0), a))
    {
      SizedSizes(bs, start, brk, i, 0, a);
    }
  }

  /** The break lowered to `to`, not below the smallest room of a free last block. */
  lemma ShrinkTiles(bs: seq<Block>, start: nat, brk: nat, to: nat)
    requires Tiled(bs, start, brk) && bs[|bs| - 1].size == 0 && to % ALIGNMENT == 0
    requires bs[|bs| - 1].at + NS + FREENODE_MIN_SIZE + GUARD <= to
    ensures Tiled(bs, start, to)
  {
    forall j | 0 <= j < |bs|
      ensures FineAt(bs, to, j)
    {
      assert FineAt(bs, brk, j);
    }
  }

  /** The break raised. */
  lemma GrowTiles(bs: seq<Block>, start: nat, brk: nat, to: nat)
    requires Tiled(bs, start, brk) && brk <= to && to % ALIGNMENT == 0
    ensures Tiled(bs, start, to)
    ensures Cap(bs, to, |bs| - 1) == Cap(bs, brk, |bs| - 1) + (to - brk)
  {
    forall j | 0 <= j < |bs|
      ensures FineAt(bs, to, j)
    {
      assert FineAt(bs, brk, j);
    }
  }

  // ---------- writing to user bytes ----------

  /** Where a write into block `i` may end: at its used bytes, or anywhere in a free block. */
  ghost function WriteEnd(bs: seq<Block>, brk: nat, i: nat): nat
    requires i < |bs|
  {
    if bs[i].size > 0 then bs[i].at + NS + bs[i].size else End(bs, brk, i)
  }

  /** Writing to the room of one block keeps the list and all other blocks in use. */
  lemma RoomWrite(m: Ram, r: Ram, bs: seq<Block>, start: nat, brk: nat, i: nat, lo: nat, n: nat)
    requires InOrder(m, bs, start, brk) && i < |bs| && Only(m, r, Range(lo, n))
    requires bs[i].at + NS <= lo && lo + n <= WriteEnd(bs, brk, i)
    ensures InOrder(r, bs, start, brk) && KeepsBut(bs, m, r, bs[i].at)
  {
    hide NodeAt, Linked, SizeAt;
    assert FineAt(bs, brk, i);
    OnlyMore(m, r, Range(lo, n), Range(bs[i].at, NS) + Range(lo, n));
    OwnBytes(bs, start, brk, i, m, r, lo, n);
    forall k | k in Headers(bs)
      ensures k !in Range(lo, n)
    {
      if In(k, lo, n) {
        HeaderNotUser(bs, start, brk, i, k);
      }
    }
    LinksElsewhere(m, r, bs, Range(lo, n));
    RoomGuards(m, r, bs, start, brk, i, lo, n);
  }

  lemma RoomGuards(m: Ram, r: Ram, bs: seq<Block>, start: nat, brk: nat, i: nat, lo: nat, n: nat)
    requires Tiled(bs, start, brk) && brk <= |m| && Guarded(m, bs) && i < |bs| && Only(m, r, Range(lo, n))
    requires bs[i].at + NS <= lo && lo + n <= WriteEnd(bs, brk, i) && KeepsBut(bs, m, r, bs[i].at)
    ensures Guarded(r, bs)
  {
    SizeAtIs(bs, start, brk, i);
    hide SizeAt, Load32;
    forall a: nat | SizeAt(bs, a) > 0
      ensures GuardBehind(r, a, SizeAt(bs, a))
    {
      assert GuardBehind(m, a, SizeAt(bs, a));
      if a != bs[i].at {
        GuardKept(m, r, a, SizeAt(bs, a));
      } else {
        var g := a + NS + bs[i].size;
        SliceKept(m, r, Range(lo, n), g, 4);
        LoadSlice(m, r, g);
      }
    }
  }

  lemma PutOnly(m: Ram, a: nat, w: seq<Byte>)
    requires a + |w| <= |m|
    ensures Only(m, Put(m, a, w), Range(a, |w|)) && Put(m, a, w)[a..a + |w|] == w
  {
    forall k | 0 <= k < |m| && k !in Range(a, |w|)
      ensures Put(m, a, w)[k] == m[k]
    {
      PutAt(m, a, w, k);
    }
  }

  // ---------- searching ----------

  ghost predicate Fits(bs: seq<Block>, brk: nat, k: nat, min: nat)
    requires k < |bs|
  {
    bs[k].size == 0 && Cap(bs, brk, k) >= min
  }

  ghost predicate NoFit(bs: seq<Block>, brk: nat, min: nat) {
    forall k :: 0 <= k < |bs| ==> !Fits(bs, brk, k, min)
  }

  /** The blocks a search that began at index `c` and stands at `j` has passed. */
  ghost predicate Passed(wrapped: bool, c: nat, j: nat, k: nat) {
    if wrapped then c <= k || k < j else c <= k < j
  }

  ghost predicate PassedUnfit(bs: seq<Block>, brk: nat, min: nat, wrapped: bool, c: nat, j: nat) {
    forall k :: 0 <= k < |bs| && Passed(wrapped, c, j, k) ==> !Fits(bs, brk, k, min)
  }

  // ---------- growing ----------

  const PAGE_SIZE: nat := 4096

  function PageAligned(v: nat): (r: nat)
    ensures r % PAGE_SIZE == 0 && v <= r < v + PAGE_SIZE
  {
    (v + 4095) / 4096 * 4096
  }

  /** How much more room the heap needs for `size` bytes when no free node is large enough: less if
      the last node is free already. */
  function Request(size: nat, lastFree: bool, lastCap: int): nat {
    if lastFree then (if size - lastCap + GUARD > 0 then Aligned(size - lastCap + GUARD) else 0)
    else Aligned(NS + size + GUARD)
  }

  /** The break asked for. */
  ghost function Wanted(bs: seq<Block>, brk: nat, size: nat): nat
    requires bs != []
  {
    PageAligned(brk + Request(size, bs[|bs| - 1].size == 0, Cap(bs, brk, |bs| - 1)))
  }

  /** The break stays, or is raised to what a request for `size` bytes that fits nowhere asks for. */
  ghost predicate Raised(bs: seq<Block>, brk: nat, size: nat, to: nat) {
    to == brk || (bs != [] && size > 0 && NoFit(bs, brk, Aligned(size + GUARD)) && to == Wanted(bs, brk, size))
  }

  lemma NotRaised(bs: seq<Block>, brk: nat, size: nat)
    ensures Raised(bs, brk, size, brk)
  {
  }

  /** Whenever the allocator raises its break, it asks for a page boundary above it. */
  lemma RaisesByPages(bs: seq<Block>, start: nat, brk: nat, size: nat, to: nat)
    requires Tiled(bs, start, brk) && Raised(bs, brk, size, to)
    ensures to == brk || (to > brk && to % PAGE_SIZE == 0)
  {
    if to != brk {
      var last := |bs| - 1;
      CapAligned(bs, start, brk, last);
      if bs[last].size == 0 {
        assert !Fits(bs, brk, last, Aligned(size + GUARD));
        RequestExact(size, Cap(bs, brk, last));
      } else {
        RequestExact(size, 0);
      }
    }
  }

  /** What is asked for is exactly what is missing. */
  lemma RequestExact(size: nat, cap: nat)
    ensures Request(size, false, cap) == NS + Aligned(size + GUARD)
    ensures cap % ALIGNMENT == 0 && cap < Aligned(size + GUARD) ==> Request(size, true, cap) == Aligned(size + GUARD) - cap
  {
    assert Aligned(NS + size + GUARD) == NS + Aligned(size + GUARD);
    if cap % ALIGNMENT == 0 && cap < Aligned(size + GUARD) {
      assert size + GUARD - cap > 0;
    }
  }

  lemma CapAligned(bs: seq<Block>, start: nat, brk: nat, i: nat)
    requires Tiled(bs, start, brk) && i < |bs|
    ensures Cap(bs, brk, i) % ALIGNMENT == 0 && Cap(bs, brk, i) >= FREENODE_MIN_SIZE + GUARD
  {
    assert FineAt(bs, brk, i);
    if i + 1 < |bs| {
      assert FineAt(bs, brk, i + 1);
    }
  }

  /** The break wanted leaves enough room, and exactly enough if it was page aligned as asked for:
      then the allocator's check that the room is larger fails although the room suffices. */
  lemma GrownRoom(bs: seq<Block>, start: nat, brk: nat, size: nat)
    requires Tiled(bs, start, brk) && bs[|bs| - 1].size == 0 && NoFit(bs, brk, Aligned(size + GUARD))
    ensures var cap := Cap(bs, Wanted(bs, brk, size), |bs| - 1);
            && cap >= Aligned(size + GUARD)
            && (cap > Aligned(size + GUARD) <==>
                (brk + Request(size, true, Cap(bs, brk, |bs| - 1))) % PAGE_SIZE != 0)
  {
    var last := |bs| - 1;
    CapAligned(bs, start, brk, last);
    assert !Fits(bs, brk, last, Aligned(size + GUARD));
    RequestExact(size, Cap(bs, brk, last));
    PageExact(brk + Request(size, true, Cap(bs, brk, last)));
  }

  /** It is the least page boundary that leaves enough room behind a free last block, or for a new one. */
  lemma WantedLeast(bs: seq<Block>, start: nat, brk: nat, size: nat, to: nat)
    requires Tiled(bs, start, brk) && NoFit(bs, brk, Aligned(size + GUARD))
    ensures var room := (if bs[|bs| - 1].size == 0 then bs[|bs| - 1].at else brk) + NS + Aligned(size + GUARD);
            to == Wanted(bs, brk, size) <==> to % PAGE_SIZE == 0 && room <= to < room + PAGE_SIZE
  {
    var last := |bs| - 1;
    CapAligned(bs, start, brk, last);
    assert bs[last].size == 0 ==> !Fits(bs, brk, last, Aligned(size + GUARD));
    RequestExact(size, Cap(bs, brk, last));
    var v := brk + Request(size, bs[last].size == 0, Cap(bs, brk, last));
    hide Aligned, Request, PageAligned, Tiled;
    NextPage(v, to);
  }

  lemma NextPage(v: nat, to: nat)
    ensures to == PageAligned(v) <==> to % PAGE_SIZE == 0 && v <= to < v + PAGE_SIZE
  {
  }

  /** It happens: a heap of one free page, which is asked for 8172 bytes. */
  lemma ExactGrowth()
    ensures var bs := [Block(PAGE_SIZE, 0)];
            && Tiled(bs, PAGE_SIZE, 2 * PAGE_SIZE) && NoFit(bs, 2 * PAGE_SIZE, Aligned(8172 + GUARD))
            && Wanted(bs, 2 * PAGE_SIZE, 8172) == 3 * PAGE_SIZE && Cap(bs, 3 * PAGE_SIZE, 0) == Aligned(8172 + GUARD)
  {
    var bs := [Block(PAGE_SIZE, 0)];
    assert Cap(bs, 2 * PAGE_SIZE, 0) == 4080 && Request(8172, true, 4080) == 4096;
  }

  lemma PageExact(v: nat)
    ensures PageAligned(v) == v <==> v % PAGE_SIZE == 0
  {
  }

  /** A node for the room between the old and the new break. */
  lemma GrownTail(bs: seq<Block>, start: nat, brk: nat, size: nat)
    requires Tiled(bs, start, brk) && bs[|bs| - 1].size > 0 && size > 0
    ensures var to := Wanted(bs, brk, size);
            && to % ALIGNMENT == 0 && brk + NS + Aligned(size + GUARD) <= to
            && Tiled(bs, start, to) && Tiled(Inserted(bs, |bs|, Block(brk, 0)), start, to)
            && Cap(Inserted(bs, |bs|, Block(brk, 0)), to, |bs|) >= Aligned(size + GUARD)
  {
    hide Tiled, FineAt, Fine, Aligned;
    BreakAligned(bs, start, brk);
    var to := Wanted(bs, brk, size);
    RequestExact(size, 0);
    PageWord(to);
    GrowTiles(bs, start, brk, to);
    LastFits(bs, start, brk);
    InsertedTiles(bs, start, to, |bs|, brk);
  }

  lemma BreakAligned(bs: seq<Block>, start: nat, brk: nat)
    requires Tiled(bs, start, brk)
    ensures brk % ALIGNMENT == 0 && bs != []
  {
  }

  lemma PageWord(v: nat)
    requires v % PAGE_SIZE == 0
    ensures v % ALIGNMENT == 0
  {
  }

  lemma LastFits(bs: seq<Block>, start: nat, brk: nat)
    requires Tiled(bs, start, brk)
    ensures Fine(bs[|bs| - 1], brk)
  {
    assert FineAt(bs, brk, |bs| - 1);
  }

  // ---------- where a block goes, and how much room it gets ----------

  /** Block `i` holds `n` bytes and had `room` to be put into: if enough is left over for a block, it has
      just what it needs and a free block behind it, else it has all the room. */
  ghost predicate Trimmed(bs: seq<Block>, brk: nat, i: nat, n: nat, room: int) {
    && i < |bs| && bs[i].size == n
    && if room - Aligned(n + GUARD) >= NS + FREENODE_MIN_SIZE + GUARD
       then Cap(bs, brk, i) == Aligned(n + GUARD) && NextFree(bs, i)
       else Cap(bs, brk, i) == room
  }

  ghost predicate TrimmedAt(bs: seq<Block>, brk: nat, a: nat, n: nat, room: int) {
    exists i :: IsAt(bs, i, a) && Trimmed(bs, brk, i, n, room)
  }

  /** Between indices `c` and `i`, going up and around. */
  ghost predicate OnTheWay(c: nat, i: nat, k: nat) {
    if c <= i then c <= k < i else c <= k || k < i
  }

  /** Block `i` is the first free one with enough room, from block `c` on. */
  ghost predicate FirstFit(bs: seq<Block>, brk: nat, c: nat, i: nat, min: nat) {
    && i < |bs| && Fits(bs, brk, i, min)
    && forall k :: 0 <= k < |bs| && OnTheWay(c, i, k) ==> !Fits(bs, brk, k, min)
  }

  ghost predicate FitFrom(bs: seq<Block>, brk: nat, cursor: nat, a: nat, min: nat, room: int) {
    exists c, i :: IsAt(bs, c, cursor) && IsAt(bs, i, a) && FirstFit(bs, brk, c, i, min) && room == Cap(bs, brk, i)
  }

  /** Where `n` bytes go, and what room there is: the first fit from the cursor, or, if nothing fits, the
      end of the heap, whose break is `to` now. */
  ghost predicate Where(bs: seq<Block>, brk: nat, cursor: nat, n: nat, to: nat, a: nat, room: int) {
    if NoFit(bs, brk, Aligned(n + GUARD))
    then bs != [] && a == (if bs[|bs| - 1].size == 0 then bs[|bs| - 1].at else brk) && room == to - (a + NS)
    else to == brk && FitFrom(bs, brk, cursor, a, Aligned(n + GUARD), room)
  }

  /** The new block at `a` is where it belongs and has the room it needs. */
  ghost predicate Placed(bs: seq<Block>, brk: nat, cursor: nat, n: nat, cs: seq<Block>, to: nat, a: nat) {
    exists room :: Where(bs, brk, cursor, n, to, a, room) && TrimmedAt(cs, to, a, n, room)
  }

  /** The cursor stands at the block behind the one at `a`, or at the first one. */
  ghost predicate IsBehind(bs: seq<Block>, a: nat, cursor: nat) {
    exists i :: IsAt(bs, i, a) && IsAt(bs, NextIndex(i, |bs|), cursor)
  }

  /** Where block `i` goes when it gets a new size, and the room it has there: it stays, takes a free next
      block in, moves to a free previous one, or is placed anew; the first of these that is large enough. */
  ghost predicate Refitted(bs: seq<Block>, brk: nat, cursor: nat, i: nat, n: nat, cs: seq<Block>, to: nat, a: nat) {
    && i < |bs|
    && var c := Aligned(n + GUARD);
       if c <= Cap(bs, brk, i) then a == bs[i].at && to == brk && TrimmedAt(cs, to, a, n, Cap(bs, brk, i))
       else if c <= WithNext(bs, brk, i) then a == bs[i].at && to == brk && TrimmedAt(cs, to, a, n, WithNext(bs, brk, i))
       else if PrevFree(bs, i) && c <= WithAll(bs, brk, i)
       then a == bs[i - 1].at && to == brk && TrimmedAt(cs, to, a, n, WithAll(bs, brk, i))
       else Placed(bs, brk, cursor, n, cs, to, a)
  }

  ghost predicate RefittedAt(bs: seq<Block>, brk: nat, cursor: nat, x: nat, n: nat, cs: seq<Block>, to: nat, a: nat) {
    exists i :: IsAt(bs, i, x) && Refitted(bs, brk, cursor, i, n, cs, to, a)
  }

  lemma TrimmedIsAt(bs: seq<Block>, brk: nat, i: nat, a: nat, n: nat, room: int)
    requires IsAt(bs, i, a) && Trimmed(bs, brk, i, n, room)
    ensures TrimmedAt(bs, brk, a, n, room)
  {
  }

  /** A block that was put to use has the room it needs. */
  lemma ResizedTrimmed(bs: seq<Block>, start: nat, brk: nat, i: nat, n: nat)
    requires Tiled(bs, start, brk) && i < |bs| && 0 < n && Aligned(n + GUARD) <= Cap(bs, brk, i)
    ensures Trimmed(Resized(bs, brk, i, n, Aligned(n + GUARD)), brk, i, n, Cap(bs, brk, i))
  {
    hide Fine, Tiled;
    var c := Aligned(n + GUARD);
    SizedTiles(bs, start, brk, i, n);
    SplitFits(bs, start, brk, i, n, c);
    var b := Sized(bs, i, n);
    if Cap(b, brk, i) - c >= NS + FREENODE_MIN_SIZE + GUARD {
      var x := bs[i].at + NS + c;
      var d := Inserted(b, i + 1, Block(x, 0));
      InsertedTiles(b, start, brk, i + 1, x);
      CoalescedTiles(d, start, brk, i + 1);
      var r := Coalesced(d, i + 1);
      assert r[i] == r[..i + 2][i] == d[..i + 2][i] == b[i];
      assert r[i + 1] == r[..i + 2][i + 1] == d[..i + 2][i + 1] == Block(x, 0);
    }
  }

  /** The list with `m` in place of the blocks from `a` up to `b`. */
  ghost function Swapped(bs: seq<Block>, a: nat, m: seq<Block>, b: nat): seq<Block>
    requires a <= b <= |bs|
  {
    bs[..a] + m + bs[b..]
  }

  /** The list with block `i` freed, piece by piece. */
  lemma FreedPieces(bs: seq<Block>, i: nat)
    requires i < |bs|
    ensures Freed(bs, i) == Swapped(bs, i, if PrevFree(bs, i) then [] else [Block(bs[i].at, 0)], if NextFree(bs, i) then i + 2 else i + 1)
  {
    var b := Sized(bs, i, 0);
    var c := Coalesced(b, i);
    assert c == bs[..i] + [Block(bs[i].at, 0)] + (if NextFree(bs, i) then bs[i + 2..] else bs[i + 1..]);
  }

  /** What stands outside of a stretch that is replaced. */
  lemma SwappedAt(bs: seq<Block>, a: nat, m: seq<Block>, b: nat, j: nat)
    requires a <= b <= |bs| && j < |bs| && (j < a || b <= j)
    ensures var r := Swapped(bs, a, m, b);
            var k := if j < a then j else j + |m| - (b - a);
            |r| == |bs| + |m| - (b - a) && 0 <= k < |r| && r[k] == bs[j]
  {
  }

  lemma SwappedFirst(bs: seq<Block>, a: nat, m: seq<Block>, b: nat)
    requires a <= b <= |bs| && m != []
    ensures |Swapped(bs, a, m, b)| > a && Swapped(bs, a, m, b)[a] == m[0]
  {
  }

  /** Where a block `j` that is in use is found when block `i` has been freed. */
  ghost function FreedTo(bs: seq<Block>, i: nat, j: nat): int
    requires i < |bs|
  {
    if j < i then j else j - (if NextFree(bs, i) then 1 else 0) - (if PrevFree(bs, i) then 1 else 0)
  }

  lemma FreedStays(bs: seq<Block>, i: nat, j: nat)
    requires i < |bs| && j < |bs| && i != j && (j == i + 1 ==> bs[j].size > 0)
    ensures var r, k := Freed(bs, i), FreedTo(bs, i, j);
            |r| == FreedTo(bs, i, |bs|) && 0 <= k < |r| && r[k] == bs[j]
  {
    FreedPieces(bs, i);
    hide Freed, Swapped;
    SwappedAt(bs, i, if PrevFree(bs, i) then [] else [Block(bs[i].at, 0)], if NextFree(bs, i) then i + 2 else i + 1, j);
  }

  /** The block behind it still begins where it did, and is free if it was. */
  lemma FreedNext(bs: seq<Block>, i: nat, j: nat)
    requires i < |bs| && j + 1 < |bs| && i != j && bs[j].size > 0
    ensures var r, k := Freed(bs, i), FreedTo(bs, i, j) + 1;
            0 <= k < |r| && r[k].at == bs[j + 1].at && (bs[j + 1].size == 0 ==> r[k].size == 0)
  {
    hide Freed, Swapped;
    if j + 1 == i {
      FreedPieces(bs, i);
      SwappedFirst(bs, i, [Block(bs[i].at, 0)], if NextFree(bs, i) then i + 2 else i + 1);
    } else {
      FreedStays(bs, i, j + 1);
    }
  }

  /** Freeing another block leaves a block its room. */
  lemma FreedTrimmed(bs: seq<Block>, brk: nat, i: nat, j: nat, n: nat, room: int)
    requires i < |bs| && i != j && n > 0 && Trimmed(bs, brk, j, n, room)
    ensures TrimmedAt(Freed(bs, i), brk, bs[j].at, n, room)
  {
    hide Freed, Aligned;
    FreedStays(bs, i, j);
    if j + 1 < |bs| {
      FreedNext(bs, i, j);
    }
    var k := FreedTo(bs, i, j);
    assert Trimmed(Freed(bs, i), brk, k, n, room);
    TrimmedIsAt(Freed(bs, i), brk, k, bs[j].at, n, room);
  }

  /** The cursor stands at a free block that address `a` lies in. */
  ghost predicate FreeAround(bs: seq<Block>, brk: nat, a: nat, cursor: nat) {
    exists j: nat :: IsAt(bs, j, cursor) && bs[j].size == 0 && cursor <= a && a + NS <= End(bs, brk, j)
  }

  lemma FreedAround(bs: seq<Block>, start: nat, brk: nat, i: nat)
    requires Tiled(bs, start, brk) && Merged(bs) && i < |bs|
    ensures FreeAround(Freed(bs, i), brk, bs[i].at, Freed(bs, i)[FreedIndex(bs, i)].at)
  {
    var j := FreedIndex(bs, i);
    FreedRoom(bs, start, brk, i);
    FreedMerged(bs, i);
    assert FineAt(bs, brk, i) && (i > 0 ==> FineAt(bs, brk, i - 1)) && (i + 1 < |bs| ==> FineAt(bs, brk, i + 1));
    hide Freed;
    assert IsAt(Freed(bs, i), j, Freed(bs, i)[j].at);
  }

  // ---------- what the operations promise ----------

  /** A new block of `n` bytes at `p`; every other block is as it was. */
  ghost predicate Added(bs: seq<Block>, m: Ram, cs: seq<Block>, r: Ram, p: nat, n: nat) {
    && p >= NS && SizeAt(bs, p - NS) == 0
    && (forall a :: SizeAt(cs, a) == if a == p - NS then n else SizeAt(bs, a))
    && KeepsUser(bs, m, r) && |r| == |m|
  }

  /** The block at `p` is gone; every other block is as it was. */
  ghost predicate Taken(bs: seq<Block>, m: Ram, cs: seq<Block>, r: Ram, p: nat) {
    && p >= NS
    && (forall a :: SizeAt(cs, a) == if a == p - NS then 0 else SizeAt(bs, a))
    && KeepsUser(cs, m, r) && |r| == |m|
  }

  function Min(a: nat, b: nat): nat {
    if a < b then a else b
  }

  /** The block at `p` became one of `n` bytes at `q` that begins with the same bytes; every other
      block is as it was. */
  ghost predicate Moved(bs: seq<Block>, m: Ram, cs: seq<Block>, r: Ram, p: nat, q: nat, n: nat) {
    && p >= NS && q >= NS && |r| == |m| && (q != p ==> SizeAt(bs, q - NS) == 0)
    && (forall a :: SizeAt(cs, a) == if a == q - NS then n else if a == p - NS then 0 else SizeAt(bs, a))
    && KeepsBut(bs, m, r, p - NS)
    && SameStart(m, r, p, q, Min(SizeAt(bs, p - NS), n))
  }

  ghost predicate SameStart(m: Ram, r: Ram, p: nat, q: nat, n: nat) {
    p + n <= |m| && q + n <= |r| && r[q..q + n] == m[p..p + n]
  }

  /** Putting a block to use that was free. */
  lemma ResizedAdds(b: seq<Block>, bs: seq<Block>, start: nat, brk: nat, i: nat, n: nat, c: nat, m0: Ram, m: Ram, r: Ram)
    requires Tiled(bs, start, brk) && i < |bs| && bs[i].size == 0 && SameSizes(bs, b)
    requires KeepsUser(b, m0, m) && KeepsBut(bs, m, r, bs[i].at) && |r| == |m| == |m0|
    ensures Added(b, m0, Resized(bs, brk, i, n, c), r, bs[i].at + NS, n)
  {
    hide Tiled, Resized, User;
    SizeAtIs(bs, start, brk, i);
    hide SizeAt;
    forall a
      ensures SizeAt(Resized(bs, brk, i, n, c), a) == if a == bs[i].at then n else SizeAt(b, a)
    {
      ResizedSizes(bs, start, brk, i, n, c, a);
      assert SizeAt(bs, a) == SizeAt(b, a);
    }
    forall a: nat | SizeAt(b, a) > 0
      ensures User(r, a, SizeAt(b, a)) == User(m0, a, SizeAt(b, a))
    {
      assert SizeAt(bs, a) == SizeAt(b, a);
    }
    assert SizeAt(bs, bs[i].at) == SizeAt(b, bs[i].at);
  }

  /** Freeing a block in use. */
  lemma FreedTakes(bs: seq<Block>, start: nat, brk: nat, i: nat, m: Ram, r: Ram)
    requires Tiled(bs, start, brk) && brk <= |m| && i < |bs| && Only(m, r, Headers(bs))
    ensures Taken(bs, m, Freed(bs, i), r, bs[i].at + NS)
  {
    HeadersKeepUser(bs, start, brk, m, r);
    hide Tiled, Freed, User, SizeAt;
    forall a
      ensures SizeAt(Freed(bs, i), a) == if a == bs[i].at then 0 else SizeAt(bs, a)
    {
      FreedSizes(bs, start, brk, i, a);
    }
  }

  /** Freeing leaves the bytes of the block where they are. */
  lemma FreedBytes(bs: seq<Block>, start: nat, brk: nat, i: nat, m: Ram, r: Ram, n: nat)
    requires Tiled(bs, start, brk) && brk <= |m| && i < |bs| && Only(m, r, Headers(bs)) && n <= Cap(bs, brk, i)
    ensures SameStart(m, r, bs[i].at + NS, bs[i].at + NS, n)
  {
    Inside(bs, start, brk, i);
    var lo := bs[i].at + NS;
    forall k | lo <= k < lo + n
      ensures k !in Headers(bs)
    {
      HeaderNotUser(bs, start, brk, i, k);
    }
    SliceKept(m, r, Headers(bs), lo, n);
  }

  // ---------- the ways to grow a block ----------

  ghost predicate NextFree(bs: seq<Block>, i: nat) {
    i + 1 < |bs| && bs[i + 1].size == 0
  }

  ghost predicate PrevFree(bs: seq<Block>, i: nat) {
    0 < i < |bs| && bs[i - 1].size == 0
  }

  /** Room of block `i` with that of a free next block. */
  ghost function WithNext(bs: seq<Block>, brk: nat, i: nat): int
    requires i < |bs|
  {
    Cap(bs, brk, i) + if NextFree(bs, i) then NS + Cap(bs, brk, i + 1) else 0
  }

  /** Room of block `i` with that of all free neighbours. */
  ghost function WithAll(bs: seq<Block>, brk: nat, i: nat): int
    requires i < |bs|
  {
    WithNext(bs, brk, i) + if PrevFree(bs, i) then Cap(bs, brk, i - 1) + NS else 0
  }

  /** Resizing a block in use where it is. */
  lemma ResizedMoves(b: seq<Block>, bs: seq<Block>, start: nat, brk: nat, i: nat, n: nat, c: nat, m0: Ram, m: Ram, r: Ram)
    requires Tiled(bs, start, brk) && i < |bs| && SameSizes(bs, b) && |r| == |m| == |m0|
    requires KeepsBut(b, m0, m, bs[i].at) && KeepsBut(bs, m, r, bs[i].at)
    requires SameStart(m0, m, bs[i].at + NS, bs[i].at + NS, Min(SizeAt(b, bs[i].at), n))
    requires bs[i].at + NS + n <= |m| && r[bs[i].at + NS..bs[i].at + NS + n] == m[bs[i].at + NS..bs[i].at + NS + n]
    ensures Moved(b, m0, Resized(bs, brk, i, n, c), r, bs[i].at + NS, bs[i].at + NS, n)
  {
    hide Tiled, Resized, User, SizeAt;
    var p := bs[i].at + NS;
    forall a
      ensures SizeAt(Resized(bs, brk, i, n, c), a) ==
              if a == p - NS then n else SizeAt(b, a)
    {
      ResizedSizes(bs, start, brk, i, n, c, a);
      assert SizeAt(bs, a) == SizeAt(b, a);
    }
    ButTwice(b, bs, m0, m, r, bs[i].at, bs[i].at);
    StartTwice(m0, m, r, p, p, p, Min(SizeAt(b, bs[i].at), n), n);
  }

  lemma StartTwice(m: Ram, r: Ram, t: Ram, p: nat, q: nat, z: nat, k: nat, n: nat)
    requires SameStart(m, r, p, q, k) && SameStart(r, t, q, z, n) && k <= n
    ensures SameStart(m, t, p, z, k)
  {
    assert t[z..z + k] == t[z..z + n][..k] && r[q..q + k] == r[q..q + n][..k];
  }

  /** Keeping all blocks but one twice, the second time with a free block as the exception. */
  lemma ButTwice(bs: seq<Block>, cs: seq<Block>, m: Ram, r: Ram, t: Ram, x: nat, z: nat)
    requires KeepsBut(bs, m, r, x) && KeepsBut(cs, r, t, z) && (z == x || SizeAt(bs, z) == 0)
    requires forall a :: a != x && SizeAt(bs, a) > 0 ==> SizeAt(cs, a) == SizeAt(bs, a)
    ensures KeepsBut(bs, m, t, x)
  {
    hide User, SizeAt;
    forall a: nat | SizeAt(bs, a) > 0 && a != x
      ensures User(t, a, SizeAt(bs, a)) == User(m, a, SizeAt(bs, a))
    {
      assert SizeAt(cs, a) == SizeAt(bs, a);
    }
  }

  lemma UserIsBut(bs: seq<Block>, m: Ram, r: Ram, x: nat)
    requires KeepsUser(bs, m, r)
    ensures KeepsBut(bs, m, r, x)
  {
  }

  lemma DroppedBut(bs: seq<Block>, i: nat)
    requires Merged(bs) && NextFree(bs, i) && bs[i].size > 0
    ensures MergedBut(Dropped(bs, i + 1), i) && Dropped(bs, i + 1)[i] == bs[i]
  {
    var cs := Dropped(bs, i + 1);
    forall j | 0 <= j < |cs| - 1 && j != i && j + 1 != i
      ensures cs[j].size > 0 || cs[j + 1].size > 0
    {
      var k := if j <= i then j else j + 1;
      assert cs[j] == bs[k] && cs[j + 1] == bs[k + 1];
    }
  }

  /** A block freed, its bytes moved to the front of the merged room, and that put to use. */
  lemma MergePrevMoves(bs: seq<Block>, start: nat, brk: nat, i: nat, n: nat, c: nat, m: Ram, m1: Ram, m2: Ram, r: Ram)
    requires Tiled(bs, start, brk) && PrevFree(bs, i) && bs[i].size <= n && |m| == |m1| == |m2| == |r|
    requires Tiled(Freed(bs, i), start, brk) && IsAt(Freed(bs, i), i - 1, bs[i - 1].at)
    requires Freed(bs, i)[i - 1].size == 0
    requires var p, q := bs[i].at + NS, bs[i - 1].at + NS;
             && Taken(bs, m, Freed(bs, i), m1, p) && SameStart(m, m1, p, p, bs[i].size)
             && KeepsBut(Freed(bs, i), m1, m2, q - NS) && SameStart(m1, m2, p, q, bs[i].size)
             && KeepsBut(Freed(bs, i), m2, r, q - NS) && SameStart(m2, r, q, q, n)
    ensures Moved(bs, m, Resized(Freed(bs, i), brk, i - 1, n, c), r, bs[i].at + NS, bs[i - 1].at + NS, n)
  {
    hide Tiled, Freed, Resized, User, SizeAt, KeepsUser, KeepsBut, SameStart, Fine;
    var cs, p, q := Freed(bs, i), bs[i].at + NS, bs[i - 1].at + NS;
    SizeAtIs(bs, start, brk, i);
    SizeAtIs(bs, start, brk, i - 1);
    SizeAtIs(cs, start, brk, i - 1);
    OneAddress(bs, start, brk, i, i - 1);
    forall a
      ensures SizeAt(Resized(cs, brk, i - 1, n, c), a) == if a == q - NS then n else if a == p - NS then 0 else SizeAt(bs, a)
    {
      ResizedSizes(cs, start, brk, i - 1, n, c, a);
      assert SizeAt(cs, a) == if a == p - NS then 0 else SizeAt(bs, a);
    }
    StartTwice(m, m1, m2, p, p, q, bs[i].size, bs[i].size);
    StartTwice(m, m2, r, p, q, q, bs[i].size, n);
    ChainKept(bs, cs, m, m1, m2, r, p - NS, q - NS);
  }

  lemma OneAddress(bs: seq<Block>, start: nat, brk: nat, i: nat, j: nat)
    requires Tiled(bs, start, brk) && i < |bs| && j < |bs| && i != j
    ensures bs[i].at != bs[j].at
  {
    BlocksApart(bs, start, brk, i, j);
  }

  lemma ChainKept(bs: seq<Block>, cs: seq<Block>, m: Ram, m1: Ram, m2: Ram, r: Ram, x: nat, z: nat)
    requires KeepsUser(cs, m, m1) && KeepsBut(cs, m1, m2, z) && KeepsBut(cs, m2, r, z) && SizeAt(bs, z) == 0
    requires forall a :: SizeAt(cs, a) == if a == x then 0 else SizeAt(bs, a)
    ensures KeepsBut(bs, m, r, x)
  {
    hide User, SizeAt;
    forall a: nat | SizeAt(bs, a) > 0 && a != x
      ensures User(r, a, SizeAt(bs, a)) == User(m, a, SizeAt(bs, a))
    {
      assert SizeAt(cs, a) == SizeAt(bs, a) && a != z;
    }
  }

  /** A new block, the old one freed, and its bytes moved over. */
  lemma CopyMoves(bs: seq<Block>, m: Ram, b1: seq<Block>, m1: Ram, b2: seq<Block>, m2: Ram, r: Ram, p: nat, q: nat, n: nat)
    requires Added(bs, m, b1, m1, q, n) && p >= NS && SizeAt(bs, p - NS) > 0 && SizeAt(bs, p - NS) <= n
    requires Taken(b1, m1, b2, m2, p) && SameStart(m1, m2, p, p, SizeAt(bs, p - NS)) && |r| == |m2|
    requires KeepsBut(b2, m2, r, q - NS) && SameStart(m2, r, p, q, SizeAt(bs, p - NS))
    requires SameStart(m, m1, p, p, SizeAt(bs, p - NS))
    ensures Moved(bs, m, b2, r, p, q, n)
  {
    hide User, SizeAt;
    var k := SizeAt(bs, p - NS);
    StartTwice(m, m1, m2, p, p, p, k, k);
    StartTwice(m, m2, r, p, p, q, k, k);
    assert SizeAt(b1, p - NS) == k;
    forall a: nat | SizeAt(bs, a) > 0 && a != p - NS
      ensures User(r, a, SizeAt(bs, a)) == User(m, a, SizeAt(bs, a))
    {
      assert SizeAt(b1, a) == SizeAt(bs, a) && SizeAt(b2, a) == SizeAt(b1, a);
    }
  }

  lemma UserStart(bs: seq<Block>, m: Ram, r: Ram, a: nat)
    requires KeepsUser(bs, m, r) && SizeAt(bs, a) > 0 && |m| == |r| && a + NS + SizeAt(bs, a) + GUARD <= |m|
    ensures SameStart(m, r, a + NS, a + NS, SizeAt(bs, a))
  {
    UserPrefix(m, r, a, SizeAt(bs, a));
  }

  // ---------- the first node ----------

  /** A first free node, linked to itself, makes a list in order. */
  lemma FirstNodeList(m: Ram, start: nat, brk: nat)
    requires 0 < start && start % ALIGNMENT == 0 && brk % ALIGNMENT == 0 && brk <= |m| <= WORD_LIMIT
    requires start + NS + FREENODE_MIN_SIZE + GUARD <= brk && NodeAt(m, start) == Node(start, start, 0, GUARD_VALUE)
    ensures InOrder(m, [Block(start, 0)], start, brk) && Merged([Block(start, 0)])
  {
    hide NodeAt;
    var bs := [Block(start, 0)];
    assert FineAt(bs, brk, 0) && LinkedAt(m, bs, 0);
    forall a
      ensures SizeAt(bs, a) == 0
    {
      assert bs[1..] == [];
    }
  }

  // ---------- all of the heap is accounted for ----------

  /** Node headers and room, summed up over the list. */
  ghost function Total(bs: seq<Block>, brk: nat, n: nat): int
    requires n <= |bs|
  {
    if n == 0 then 0 else Total(bs, brk, n - 1) + NS + Cap(bs, brk, n - 1)
  }

  /** The sum is the size of the heap: nothing between its start and the break is lost or counted
      twice. */
  lemma {:induction false} NothingLost(bs: seq<Block>, start: nat, brk: nat, n: nat)
    requires Tiled(bs, start, brk) && 0 < n <= |bs|
    ensures Total(bs, brk, n) == End(bs, brk, n - 1) - start
  {
    if n > 1 {
      NothingLost(bs, start, brk, n - 1);
    } else {
      assert Total(bs, brk, 0) == 0;
    }
  }
}
