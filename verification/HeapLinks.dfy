/** The doubly linked, circular list of node headers in memory. */
module HeapLinks {
  import opened Words
  import opened HeapRam
  import opened HeapBlocks

  function PrevIndex(i: nat, n: nat): (j: nat)
    requires i < n
    ensures j < n
  {
    if i == 0 then n - 1 else i - 1
  }

  function NextIndex(i: nat, n: nat): (j: nat)
    requires i < n
    ensures j < n
  {
    if i + 1 == n then 0 else i + 1
  }

  /** The header the `i`-th block must have. */
  ghost function Expected(bs: seq<Block>, i: nat): Node
    requires i < |bs|
  {
    Node(bs[PrevIndex(i, |bs|)].at, bs[NextIndex(i, |bs|)].at, bs[i].size, GUARD_VALUE)
  }

  ghost predicate LinkedAt(m: Ram, bs: seq<Block>, i: nat)
    requires i < |bs|
  {
    bs[i].at + NS <= |m| && NodeAt(m, bs[i].at) == Expected(bs, i)
  }

  /** The headers in memory form a circular list of exactly these blocks. */
  ghost predicate Linked(m: Ram, bs: seq<Block>) {
    |m| <= WORD_LIMIT && forall i :: 0 <= i < |bs| ==> LinkedAt(m, bs, i)
  }

  // ---------- what a write may change ----------

  /** `r` differs from `m` at most at the addresses in `where`. */
  ghost predicate Only(m: Ram, r: Ram, where: iset<nat>) {
    |m| == |r| && forall k :: 0 <= k < |m| && k !in where ==> r[k] == m[k]
  }

  predicate In(k: nat, a: nat, n: nat) {
    a <= k < a + n
  }

  ghost function Range(a: nat, n: nat): iset<nat> {
    iset k: nat | In(k, a, n)
  }

  ghost predicate InHeader(bs: seq<Block>, k: nat) {
    exists i :: 0 <= i < |bs| && In(k, bs[i].at, NS)
  }

  /** The addresses of all node headers. */
  ghost function Headers(bs: seq<Block>): iset<nat> {
    iset k: nat | InHeader(bs, k)
  }

  lemma OnlyTwice(m: Ram, r: Ram, t: Ram, a: iset<nat>, b: iset<nat>)
    requires Only(m, r, a) && Only(r, t, b)
    ensures Only(m, t, a + b)
  {
  }

  lemma OnlyMore(m: Ram, r: Ram, a: iset<nat>, b: iset<nat>)
    requires Only(m, r, a) && a <= b
    ensures Only(m, r, b)
  {
  }

  lemma HeaderIn(bs: seq<Block>, i: nat)
    requires i < |bs|
    ensures Range(bs[i].at, NS) <= Headers(bs)
  {
  }

  lemma StoreOnly(m: Ram, a: nat, o: nat, v: nat)
    requires a + NS <= |m| && o + 4 <= NS
    ensures Only(m, Store32(m, a + o, v), Range(a, NS))
  {
    forall k | 0 <= k < |m| && k !in Range(a, NS)
      ensures Store32(m, a + o, v)[k] == m[k]
    {
      PutAt(m, a + o, Bytes32(v), k);
    }
  }

  lemma SliceKept(m: Ram, r: Ram, where: iset<nat>, a: nat, n: nat)
    requires Only(m, r, where) && a + n <= |m| && forall k :: a <= k < a + n ==> k !in where
    ensures r[a..a + n] == m[a..a + n]
  {
  }

  /** The bytes in use of the block at `a`, and the guard behind them. */
  ghost function User(m: Ram, a: nat, n: nat): seq<Byte> {
    if a + NS + n + GUARD <= |m| then m[a + NS..a + NS + n + GUARD] else []
  }

  /** All blocks in use keep their bytes. */
  ghost predicate KeepsUser(bs: seq<Block>, m: Ram, r: Ram) {
    forall a :: SizeAt(bs, a) > 0 ==> User(r, a, SizeAt(bs, a)) == User(m, a, SizeAt(bs, a))
  }

  /** No header byte is a user's byte. */
  lemma HeaderNotUser(bs: seq<Block>, start: nat, brk: nat, i: nat, k: nat)
    requires Tiled(bs, start, brk) && i < |bs| && bs[i].at + NS <= k < End(bs, brk, i)
    ensures k !in Headers(bs)
  {
    if k in Headers(bs) {
      var j :| 0 <= j < |bs| && In(k, bs[j].at, NS);
      if i < j {
        Ascending(bs, start, brk, i, j);
      } else if j < i {
        Inside(bs, start, brk, j);
        Ascending(bs, start, brk, j, i);
      }
    }
  }

  /** Writing headers changes no user's byte. */
  lemma HeadersKeepUser(bs: seq<Block>, start: nat, brk: nat, m: Ram, r: Ram)
    requires Tiled(bs, start, brk) && brk <= |m| && Only(m, r, Headers(bs))
    ensures KeepsUser(bs, m, r)
  {
    forall a: nat | SizeAt(bs, a) > 0
      ensures User(r, a, SizeAt(bs, a)) == User(m, a, SizeAt(bs, a))
    {
      var i := UsedIndex(bs, start, brk, a);
      Inside(bs, start, brk, i);
      assert FineAt(bs, brk, i);
      forall k | a + NS <= k < a + NS + bs[i].size + GUARD
        ensures k !in Headers(bs)
      {
        HeaderNotUser(bs, start, brk, i, k);
      }
      SliceKept(m, r, Headers(bs), a + NS, bs[i].size + GUARD);
    }
  }

  // ---------- storing one field of a header ----------

  predicate FieldOffset(o: nat) {
    o == 0 || o == 4 || o == 8 || o == 12
  }

  function WithField(n: Node, o: nat, v: nat): Node {
    if o == 0 then n.(prev := v) else if o == 4 then n.(next := v)
    else if o == 8 then n.(size := v) else n.(guard := v)
  }

  /** What a header is after a field of the header at `a` was stored. */
  lemma StoreField(m: Ram, a: nat, o: nat, v: nat, b: nat)
    requires a + NS <= |m| && b + NS <= |m| && v < WORD_LIMIT && FieldOffset(o)
    requires a == b || Apart(a, NS, b, NS)
    ensures NodeAt(Store32(m, a + o, v), b) == if a == b then WithField(NodeAt(m, b), o, v) else NodeAt(m, b)
  {
    if a == b {
      StorePlace(m, a, o, v);
    } else {
      HeaderElsewhere(m, a + o, Bytes32(v), b);
    }
  }

  lemma HeadersApart(bs: seq<Block>, start: nat, brk: nat, i: nat, j: nat)
    requires Tiled(bs, start, brk) && i < |bs| && j < |bs| && i != j
    ensures bs[i].at != bs[j].at && Apart(bs[i].at, NS, bs[j].at, NS)
  {
    BlocksApart(bs, start, brk, i, j);
    Inside(bs, start, brk, i);
    Inside(bs, start, brk, j);
  }

  predicate SameOrApart(a: nat, b: nat) {
    a == b || Apart(a, NS, b, NS)
  }

  lemma BlockHeaders(bs: seq<Block>, start: nat, brk: nat, i: nat, j: nat)
    requires Tiled(bs, start, brk) && i < |bs| && j < |bs|
    ensures SameOrApart(bs[i].at, bs[j].at) && (bs[i].at == bs[j].at <==> i == j)
  {
    if i != j {
      HeadersApart(bs, start, brk, i, j);
    }
  }

  lemma BlockFits(bs: seq<Block>, start: nat, brk: nat, i: nat)
    requires Tiled(bs, start, brk) && i < |bs|
    ensures bs[i].at + NS + FREENODE_MIN_SIZE + GUARD <= brk && bs[i].at > 0
  {
    assert FineAt(bs, brk, i);
    Inside(bs, start, brk, i);
  }

  // ---------- inserting a node ----------

  /** The stores that put node `x` between `node` and `nxt`. */
  function Spliced(m: Ram, node: nat, nxt: nat, x: nat): (r: Ram)
    requires node + NS <= |m| && nxt + NS <= |m| && x + NS <= |m|
    ensures |r| == |m|
  {
    SetNext(SetPrev(SetNext(SetPrev(m, x, node), x, nxt), nxt, x), node, x)
  }

  lemma SplicedHeader(m: Ram, node: nat, nxt: nat, x: nat, b: nat)
    requires node + NS <= |m| && nxt + NS <= |m| && x + NS <= |m| && b + NS <= |m| <= WORD_LIMIT
    requires SameOrApart(b, node) && SameOrApart(b, nxt) && SameOrApart(b, x)
    ensures var n0 := NodeAt(m, b);
            var n1 := if b == x then n0.(prev := node, next := nxt) else n0;
            var n2 := if b == nxt then n1.(prev := x) else n1;
            NodeAt(Spliced(m, node, nxt, x), b) == if b == node then n2.(next := x) else n2
  {
    hide NodeAt, Store32;
    var r1 := SetPrev(m, x, node);
    var r2 := SetNext(r1, x, nxt);
    var r3 := SetPrev(r2, nxt, x);
    StoreField(m, x, 0, node, b);
    StoreField(r1, x, 4, nxt, b);
    StoreField(r2, nxt, 0, x, b);
    StoreField(r3, node, 4, x, b);
  }

  lemma SplicedOnly(m: Ram, node: nat, nxt: nat, x: nat)
    requires node + NS <= |m| && nxt + NS <= |m| && x + NS <= |m|
    ensures Only(m, Spliced(m, node, nxt, x), Range(node, NS) + Range(nxt, NS) + Range(x, NS))
  {
    hide Store32, Only;
    var r1 := SetPrev(m, x, node);
    var r2 := SetNext(r1, x, nxt);
    var r3 := SetPrev(r2, nxt, x);
    var r4 := SetNext(r3, node, x);
    StoreOnly(m, x, 0, node);
    StoreOnly(r1, x, 4, nxt);
    StoreOnly(r2, nxt, 0, x);
    StoreOnly(r3, node, 4, x);
    OnlyTwice(m, r1, r2, Range(x, NS), Range(x, NS));
    OnlyTwice(m, r2, r3, Range(x, NS) + Range(x, NS), Range(nxt, NS));
    OnlyTwice(m, r3, r4, Range(x, NS) + Range(x, NS) + Range(nxt, NS), Range(node, NS));
    OnlyMore(m, r4, Range(x, NS) + Range(x, NS) + Range(nxt, NS) + Range(node, NS),
             Range(node, NS) + Range(nxt, NS) + Range(x, NS));
  }

  /** After the stores the list holds the new block as well. */
  lemma SpliceLinks(m: Ram, bs: seq<Block>, start: nat, brk: nat, i: nat, x: nat)
    requires Linked(m, bs) && i < |bs| && Tiled(Inserted(bs, i + 1, Block(x, 0)), start, brk) && brk <= |m|
    requires x + NS <= |m| && NodeAt(m, x).size == 0
    ensures bs[i].at + NS <= |m| && bs[NextIndex(i, |bs|)].at + NS <= |m|
    ensures Linked(SetFirstGuard(Spliced(m, bs[i].at, bs[NextIndex(i, |bs|)].at, x), x),
                   Inserted(bs, i + 1, Block(x, 0)))
  {
    var cs := Inserted(bs, i + 1, Block(x, 0));
    assert LinkedAt(m, bs, i) && LinkedAt(m, bs, NextIndex(i, |bs|));
    var r := SetFirstGuard(Spliced(m, bs[i].at, bs[NextIndex(i, |bs|)].at, x), x);
    forall j | 0 <= j < |cs|
      ensures LinkedAt(r, cs, j)
    {
      SpliceLinkAt(m, bs, start, brk, i, x, j);
    }
  }

  lemma SpliceLinkAt(m: Ram, bs: seq<Block>, start: nat, brk: nat, i: nat, x: nat, j: nat)
    requires Linked(m, bs) && i < |bs| && Tiled(Inserted(bs, i + 1, Block(x, 0)), start, brk) && brk <= |m|
    requires x + NS <= |m| && NodeAt(m, x).size == 0 && j <= |bs|
    requires bs[i].at + NS <= |m| && bs[NextIndex(i, |bs|)].at + NS <= |m|
    ensures LinkedAt(SetFirstGuard(Spliced(m, bs[i].at, bs[NextIndex(i, |bs|)].at, x), x),
                     Inserted(bs, i + 1, Block(x, 0)), j)
  {
    hide NodeAt, Spliced, Fine, Store32;
    var n := |bs|;
    var cs := Inserted(bs, i + 1, Block(x, 0));
    var nx := NextIndex(i, n);
    var inx := if i + 1 == n then 0 else i + 2;
    assert cs[i] == bs[i] && cs[i + 1] == Block(x, 0) && cs[inx] == bs[nx];
    BlockHeaders(cs, start, brk, j, i);
    BlockHeaders(cs, start, brk, j, i + 1);
    BlockHeaders(cs, start, brk, j, inx);
    BlockFits(cs, start, brk, j);
    SplicedHeader(m, bs[i].at, bs[nx].at, x, cs[j].at);
    StoreField(Spliced(m, bs[i].at, bs[nx].at, x), x, 12, GUARD_VALUE, cs[j].at);
    if j != i + 1 {
      var k := if j <= i then j else j - 1;
      assert cs[j] == bs[k] && LinkedAt(m, bs, k);
    }
  }

  // ---------- removing a node ----------

  /** The stores that take node `x` out from between `p` and `nxt`. */
  function Unlinked(m: Ram, p: nat, x: nat, nxt: nat): (r: Ram)
    requires p + NS <= |m| && nxt + NS <= |m| && x + NS <= |m|
    ensures |r| == |m|
  {
    SetPrev(SetNext(SetPrev(SetNext(m, p, nxt), nxt, p), x, 0), x, 0)
  }

  lemma UnlinkedHeader(m: Ram, p: nat, x: nat, nxt: nat, b: nat)
    requires p + NS <= |m| && nxt + NS <= |m| && x + NS <= |m| && b + NS <= |m| <= WORD_LIMIT
    requires SameOrApart(b, p) && SameOrApart(b, nxt) && SameOrApart(b, x) && b != x
    ensures var n0 := NodeAt(m, b);
            var n1 := if b == p then n0.(next := nxt) else n0;
            NodeAt(Unlinked(m, p, x, nxt), b) == if b == nxt then n1.(prev := p) else n1
  {
    hide NodeAt, Store32;
    var r1 := SetNext(m, p, nxt);
    var r2 := SetPrev(r1, nxt, p);
    var r3 := SetNext(r2, x, 0);
    StoreField(m, p, 4, nxt, b);
    StoreField(r1, nxt, 0, p, b);
    StoreField(r2, x, 4, 0, b);
    StoreField(r3, x, 0, 0, b);
  }

  lemma UnlinkedOnly(m: Ram, p: nat, x: nat, nxt: nat)
    requires p + NS <= |m| && nxt + NS <= |m| && x + NS <= |m|
    ensures Only(m, Unlinked(m, p, x, nxt), Range(p, NS) + Range(nxt, NS) + Range(x, NS))
  {
    hide Store32, Only;
    var r1 := SetNext(m, p, nxt);
    var r2 := SetPrev(r1, nxt, p);
    var r3 := SetNext(r2, x, 0);
    var r4 := SetPrev(r3, x, 0);
    StoreOnly(m, p, 4, nxt);
    StoreOnly(r1, nxt, 0, p);
    StoreOnly(r2, x, 4, 0);
    StoreOnly(r3, x, 0, 0);
    OnlyTwice(m, r1, r2, Range(p, NS), Range(nxt, NS));
    OnlyTwice(m, r2, r3, Range(p, NS) + Range(nxt, NS), Range(x, NS));
    OnlyTwice(m, r3, r4, Range(p, NS) + Range(nxt, NS) + Range(x, NS), Range(x, NS));
    OnlyMore(m, r4, Range(p, NS) + Range(nxt, NS) + Range(x, NS) + Range(x, NS),
             Range(p, NS) + Range(nxt, NS) + Range(x, NS));
  }

  /** After the stores the list holds all blocks but that one. */
  lemma UnlinkLinks(m: Ram, bs: seq<Block>, start: nat, brk: nat, i: nat)
    requires Linked(m, bs) && 0 < i < |bs| && Tiled(bs, start, brk) && brk <= |m|
    ensures bs[i - 1].at + NS <= |m| && bs[i].at + NS <= |m| && bs[NextIndex(i, |bs|)].at + NS <= |m|
    ensures Linked(Unlinked(m, bs[i - 1].at, bs[i].at, bs[NextIndex(i, |bs|)].at), Dropped(bs, i))
  {
    var cs := Dropped(bs, i);
    assert LinkedAt(m, bs, i - 1) && LinkedAt(m, bs, i) && LinkedAt(m, bs, NextIndex(i, |bs|));
    var r := Unlinked(m, bs[i - 1].at, bs[i].at, bs[NextIndex(i, |bs|)].at);
    forall j | 0 <= j < |cs|
      ensures LinkedAt(r, cs, j)
    {
      UnlinkLinkAt(m, bs, start, brk, i, j);
    }
  }

  lemma UnlinkLinkAt(m: Ram, bs: seq<Block>, start: nat, brk: nat, i: nat, j: nat)
    requires Linked(m, bs) && 0 < i < |bs| && Tiled(bs, start, brk) && brk <= |m| && j < |bs| - 1
    requires bs[i - 1].at + NS <= |m| && bs[i].at + NS <= |m| && bs[NextIndex(i, |bs|)].at + NS <= |m|
    ensures LinkedAt(Unlinked(m, bs[i - 1].at, bs[i].at, bs[NextIndex(i, |bs|)].at), Dropped(bs, i), j)
  {
    hide NodeAt, Unlinked, Fine;
    var n := |bs|;
    var cs := Dropped(bs, i);
    var k := if j < i then j else j + 1;
    BlockHeaders(bs, start, brk, k, i - 1);
    BlockHeaders(bs, start, brk, k, i);
    BlockHeaders(bs, start, brk, k, NextIndex(i, n));
    BlockFits(bs, start, brk, k);
    UnlinkedHeader(m, bs[i - 1].at, bs[i].at, bs[NextIndex(i, n)].at, bs[k].at);
    assert cs[j] == bs[k] && LinkedAt(m, bs, k);
  }

  // ---------- changing a size ----------

  lemma SizeLinks(m: Ram, bs: seq<Block>, start: nat, brk: nat, i: nat, v: nat)
    requires Linked(m, bs) && i < |bs| && Tiled(bs, start, brk) && brk <= |m| && v < WORD_LIMIT
    ensures bs[i].at + NS <= |m| && Linked(SetSize(m, bs[i].at, v), Sized(bs, i, v))
  {
    hide NodeAt, Store32, Fine;
    var cs := Sized(bs, i, v);
    assert LinkedAt(m, bs, i);
    forall j | 0 <= j < |cs|
      ensures LinkedAt(SetSize(m, bs[i].at, v), cs, j)
    {
      assert LinkedAt(m, bs, j);
      BlockHeaders(bs, start, brk, i, j);
      StoreField(m, bs[i].at, 8, v, bs[j].at);
    }
  }

  lemma LoadKept(m: Ram, r: Ram, where: iset<nat>, a: nat, o: nat)
    requires Only(m, r, where) && a + NS <= |m| && o + 4 <= NS && forall k :: k in Range(a, NS) ==> k !in where
    ensures Load32(r, a + o) == Load32(m, a + o)
  {
    forall k: nat | a + o <= k < a + o + 4
      ensures k !in where
    {
      assert k in Range(a, NS);
    }
    SliceKept(m, r, where, a + o, 4);
    LoadSlice(m, r, a + o);
  }

  /** Writing outside all headers keeps the list. */
  lemma LinksElsewhere(m: Ram, r: Ram, bs: seq<Block>, where: iset<nat>)
    requires Linked(m, bs) && Only(m, r, where) && forall k :: k in Headers(bs) ==> k !in where
    ensures Linked(r, bs)
  {
    forall i | 0 <= i < |bs|
      ensures LinkedAt(r, bs, i)
    {
      assert LinkedAt(m, bs, i);
      HeaderIn(bs, i);
      LoadKept(m, r, where, bs[i].at, 0);
      LoadKept(m, r, where, bs[i].at, 4);
      LoadKept(m, r, where, bs[i].at, 8);
      LoadKept(m, r, where, bs[i].at, 12);
    }
  }
}
