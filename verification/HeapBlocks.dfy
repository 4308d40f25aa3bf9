/** The blocks of the heap, in address order: what the allocator's list stands for. */
module HeapBlocks {
  import opened HeapRam

  const ALIGNMENT: nat := 4
  const FREENODE_MIN_SIZE: nat := 4

  /** A node at address `at`; `size` is 0 for a free one. */
  datatype Block = Block(at: nat, size: nat)

  function Aligned(v: nat): (r: nat)
    ensures r % ALIGNMENT == 0 && v <= r < v + ALIGNMENT
  {
    (v + 3) / 4 * 4
  }

  /** Where the `i`-th block ends. */
  function End(bs: seq<Block>, brk: nat, i: nat): nat
    requires i < |bs|
  {
    if i + 1 < |bs| then bs[i + 1].at else brk
  }

  /** Room for the user behind the node header. */
  function Cap(bs: seq<Block>, brk: nat, i: nat): int
    requires i < |bs|
  {
    End(bs, brk, i) - (bs[i].at + NS)
  }

  /** A block is aligned, has the smallest room a free block may have, and what is used of it, with
      the guard behind it, fits. */
  ghost predicate Fine(b: Block, end: nat) {
    && b.at % ALIGNMENT == 0 && b.at > 0
    && b.at + NS + FREENODE_MIN_SIZE + GUARD <= end
    && (b.size > 0 ==> b.at + NS + b.size + GUARD <= end)
  }

  ghost predicate FineAt(bs: seq<Block>, brk: nat, i: nat)
    requires i < |bs|
  {
    Fine(bs[i], End(bs, brk, i))
  }

  /** The blocks lie one behind the other from `start` to `brk` without gaps. */
  ghost predicate Tiled(bs: seq<Block>, start: nat, brk: nat) {
    && |bs| > 0 && bs[0].at == start && brk % ALIGNMENT == 0
    && forall i {:trigger FineAt(bs, brk, i)} :: 0 <= i < |bs| ==> FineAt(bs, brk, i)
  }

  /** No two neighbouring blocks are both free. */
  ghost predicate Merged(bs: seq<Block>) {
    forall i :: 0 <= i < |bs| - 1 ==> bs[i].size > 0 || bs[i + 1].size > 0
  }

  lemma {:induction false} Ascending(bs: seq<Block>, start: nat, brk: nat, i: nat, j: nat)
    requires Tiled(bs, start, brk) && i < j < |bs|
    ensures End(bs, brk, i) <= bs[j].at
    decreases j
  {
    assert FineAt(bs, brk, j - 1);
    if i < j - 1 {
      Ascending(bs, start, brk, i, j - 1);
    }
  }

  /** All blocks lie between the start of the heap and the break. */
  lemma Inside(bs: seq<Block>, start: nat, brk: nat, i: nat)
    requires Tiled(bs, start, brk) && i < |bs|
    ensures start <= bs[i].at && bs[i].at + NS + FREENODE_MIN_SIZE + GUARD <= End(bs, brk, i) <= brk
  {
    assert FineAt(bs, brk, i);
    if i > 0 {
      Ascending(bs, start, brk, 0, i);
      assert FineAt(bs, brk, 0);
    }
    if i + 1 < |bs| {
      var m := |bs| - 1;
      assert FineAt(bs, brk, m);
      Ascending(bs, start, brk, i, m);
    }
  }

  /** Different blocks do not overlap. */
  lemma BlocksApart(bs: seq<Block>, start: nat, brk: nat, i: nat, j: nat)
    requires Tiled(bs, start, brk) && i < |bs| && j < |bs| && i != j
    ensures End(bs, brk, i) <= bs[j].at || End(bs, brk, j) <= bs[i].at
    ensures bs[i].at != bs[j].at
  {
    Inside(bs, start, brk, i);
    Inside(bs, start, brk, j);
    if i < j {
      Ascending(bs, start, brk, i, j);
    } else {
      Ascending(bs, start, brk, j, i);
    }
  }

  /** The index of the block at address `a`. */
  ghost predicate IsAt(bs: seq<Block>, i: nat, a: nat) {
    i < |bs| && bs[i].at == a
  }

  lemma OneIndex(bs: seq<Block>, start: nat, brk: nat, i: nat, j: nat, a: nat)
    requires Tiled(bs, start, brk) && IsAt(bs, i, a) && IsAt(bs, j, a)
    ensures i == j
  {
    if i != j {
      BlocksApart(bs, start, brk, i, j);
    }
  }

  /** Used size of the block at address `a`; 0 where no block is in use. */
  ghost function SizeAt(bs: seq<Block>, a: nat): nat {
    if bs == [] then 0 else (if bs[0].at == a then bs[0].size else 0) + SizeAt(bs[1..], a)
  }

  lemma {:induction false} SizeAtConcat(bs: seq<Block>, cs: seq<Block>, a: nat)
    ensures SizeAt(bs + cs, a) == SizeAt(bs, a) + SizeAt(cs, a)
  {
    if bs == [] {
      assert bs + cs == cs;
    } else {
      assert (bs + cs)[1..] == bs[1..] + cs;
      SizeAtConcat(bs[1..], cs, a);
    }
  }

  /** The block at index `i` counted apart from those in front of it and behind it. */
  lemma SizeAtSplit(bs: seq<Block>, i: nat, a: nat)
    requires i < |bs|
    ensures SizeAt(bs, a) == SizeAt(bs[..i], a) + (if bs[i].at == a then bs[i].size else 0) + SizeAt(bs[i + 1..], a)
  {
    assert bs == bs[..i] + ([bs[i]] + bs[i + 1..]);
    SizeAtConcat(bs[..i], [bs[i]] + bs[i + 1..], a);
    assert ([bs[i]] + bs[i + 1..])[1..] == bs[i + 1..];
  }

  lemma {:induction false} SizeAtNone(bs: seq<Block>, a: nat)
    requires forall i :: 0 <= i < |bs| ==> bs[i].at != a
    ensures SizeAt(bs, a) == 0
  {
    if bs != [] {
      SizeAtNone(bs[1..], a);
    }
  }

  lemma SizeAtIs(bs: seq<Block>, start: nat, brk: nat, i: nat)
    requires Tiled(bs, start, brk) && i < |bs|
    ensures SizeAt(bs, bs[i].at) == bs[i].size
    ensures SizeAt(bs[..i], bs[i].at) == 0 == SizeAt(bs[i + 1..], bs[i].at)
  {
    forall j | 0 <= j < |bs| && j != i
      ensures bs[j].at != bs[i].at
    {
      BlocksApart(bs, start, brk, i, j);
    }
    SizeAtNone(bs[..i], bs[i].at);
    SizeAtNone(bs[i + 1..], bs[i].at);
    SizeAtSplit(bs, i, bs[i].at);
  }

  lemma {:induction false} UsedSomewhere(bs: seq<Block>, a: nat) returns (i: nat)
    requires SizeAt(bs, a) > 0
    ensures i < |bs| && bs[i].at == a
  {
    if bs[0].at == a {
      i := 0;
    } else {
      i := UsedSomewhere(bs[1..], a);
      i := i + 1;
    }
  }

  /** Every block in use is found by its address. */
  lemma UsedIndex(bs: seq<Block>, start: nat, brk: nat, a: nat) returns (i: nat)
    requires Tiled(bs, start, brk) && SizeAt(bs, a) > 0
    ensures i < |bs| && bs[i] == Block(a, SizeAt(bs, a))
  {
    i := UsedSomewhere(bs, a);
    SizeAtIs(bs, start, brk, i);
  }

  // ---------- the operations on the list ----------

  ghost function Sized(bs: seq<Block>, i: nat, n: nat): (r: seq<Block>)
    requires i < |bs|
    ensures |r| == |bs|
  {
    bs[i := bs[i].(size := n)]
  }

  ghost function Inserted(bs: seq<Block>, i: nat, b: Block): (r: seq<Block>)
    requires i <= |bs|
    ensures |r| == |bs| + 1
  {
    bs[..i] + [b] + bs[i..]
  }

  ghost function Dropped(bs: seq<Block>, i: nat): (r: seq<Block>)
    requires i < |bs|
    ensures |r| == |bs| - 1
  {
    bs[..i] + bs[i + 1..]
  }

  /** Merging block `i` with the next one if that is free. */
  ghost function Coalesced(bs: seq<Block>, i: nat): (r: seq<Block>)
    requires i < |bs|
  {
    if i + 1 < |bs| && bs[i + 1].size == 0 then Dropped(bs, i + 1) else bs
  }

  lemma SizedTiles(bs: seq<Block>, start: nat, brk: nat, i: nat, n: nat)
    requires Tiled(bs, start, brk) && i < |bs| && (n > 0 ==> n + GUARD <= Cap(bs, brk, i))
    ensures Tiled(Sized(bs, i, n), start, brk) && Cap(Sized(bs, i, n), brk, i) == Cap(bs, brk, i)
  {
    var cs := Sized(bs, i, n);
    forall j | 0 <= j < |cs|
      ensures FineAt(cs, brk, j)
    {
      assert FineAt(bs, brk, j) && End(cs, brk, j) == End(bs, brk, j);
    }
  }

  lemma SizedSizes(bs: seq<Block>, start: nat, brk: nat, i: nat, n: nat, a: nat)
    requires Tiled(bs, start, brk) && i < |bs|
    ensures SizeAt(Sized(bs, i, n), a) == if a == bs[i].at then n else SizeAt(bs, a)
  {
    var cs := Sized(bs, i, n);
    assert cs[..i] == bs[..i] && cs[i + 1..] == bs[i + 1..];
    SizeAtSplit(bs, i, a);
    SizeAtSplit(cs, i, a);
    SizeAtIs(bs, start, brk, i);
  }

  /** A free block dropped from the list: its room goes to the block in front of it. */
  lemma DroppedTiles(bs: seq<Block>, start: nat, brk: nat, i: nat)
    requires Tiled(bs, start, brk) && 0 < i < |bs| && bs[i].size == 0
    ensures Tiled(Dropped(bs, i), start, brk)
    ensures Cap(Dropped(bs, i), brk, i - 1) == Cap(bs, brk, i - 1) + NS + Cap(bs, brk, i)
  {
    var cs := Dropped(bs, i);
    forall j | 0 <= j < |cs|
      ensures FineAt(cs, brk, j)
    {
      var k := if j < i then j else j + 1;
      assert cs[j] == bs[k] && FineAt(bs, brk, k);
      if j == i - 1 {
        Inside(bs, start, brk, i);
        assert End(cs, brk, j) == End(bs, brk, i) >= End(bs, brk, j);
      } else {
        assert End(cs, brk, j) == End(bs, brk, k);
      }
    }
  }

  lemma DroppedSizes(bs: seq<Block>, i: nat, a: nat)
    requires i < |bs| && bs[i].size == 0
    ensures SizeAt(Dropped(bs, i), a) == SizeAt(bs, a)
  {
    SizeAtSplit(bs, i, a);
    SizeAtConcat(bs[..i], bs[i + 1..], a);
  }

  /** A free block put behind block `i - 1`, inside its room. */
  lemma InsertedTiles(bs: seq<Block>, start: nat, brk: nat, i: nat, x: nat)
    requires Tiled(bs, start, brk) && 0 < i <= |bs| && x % ALIGNMENT == 0
    requires Fine(bs[i - 1], x) && x + NS + FREENODE_MIN_SIZE + GUARD <= End(bs, brk, i - 1)
    ensures Tiled(Inserted(bs, i, Block(x, 0)), start, brk)
    ensures Cap(Inserted(bs, i, Block(x, 0)), brk, i - 1) == x - (bs[i - 1].at + NS)
  {
    var cs := Inserted(bs, i, Block(x, 0));
    forall j | 0 <= j < |cs|
      ensures FineAt(cs, brk, j)
    {
      if j != i {
        var k := if j < i then j else j - 1;
        assert cs[j] == bs[k] && FineAt(bs, brk, k);
        assert j != i - 1 ==> End(cs, brk, j) == End(bs, brk, k);
      }
    }
  }

  lemma InsertedSizes(bs: seq<Block>, i: nat, x: nat, a: nat)
    requires i <= |bs|
    ensures SizeAt(Inserted(bs, i, Block(x, 0)), a) == SizeAt(bs, a)
  {
    var cs := Inserted(bs, i, Block(x, 0));
    assert cs[..i] == bs[..i] && cs[i + 1..] == bs[i..];
    SizeAtSplit(cs, i, a);
    SizeAtConcat(bs[..i], bs[i..], a);
    assert bs == bs[..i] + bs[i..];
  }

  lemma CoalescedTiles(bs: seq<Block>, start: nat, brk: nat, i: nat)
    requires Tiled(bs, start, brk) && i < |bs|
    ensures Tiled(Coalesced(bs, i), start, brk) && i < |Coalesced(bs, i)|
    ensures Coalesced(bs, i)[..i + 1] == bs[..i + 1]
    ensures Cap(Coalesced(bs, i), brk, i) >= Cap(bs, brk, i)
  {
    if i + 1 < |bs| && bs[i + 1].size == 0 {
      DroppedTiles(bs, start, brk, i + 1);
      Inside(bs, start, brk, i + 1);
    }
  }

  lemma CoalescedSizes(bs: seq<Block>, i: nat, a: nat)
    requires i < |bs|
    ensures SizeAt(Coalesced(bs, i), a) == SizeAt(bs, a)
  {
    if i + 1 < |bs| && bs[i + 1].size == 0 {
      DroppedSizes(bs, i + 1, a);
    }
  }
}
