/** The calls of an allocator as the steps of the runs that `HeapRuns` is about. */
module HeapCalls {
  import opened Words
  import opened HeapRam
  import opened HeapBlocks
  import opened HeapLinks
  import opened HeapSteps
  import opened Heap
  import opened HeapRuns

  /** What a program does with its heap. */
  datatype Call = Want(n: nat) | WantZeros(n: nat) | Resize(p: nat, n: nat) | Drop(p: nat) | Store(p: nat, o: nat, w: seq<Byte>)

  ghost function Shown(a: Allocator): State
    reads a
  {
    State(a.ram, a.bs)
  }

  /** Pointers are 0 or those of blocks in use, writes stay inside them, and no request is so large that
      the break would pass 2^32. */
  ghost predicate MayCall(a: Allocator, c: Call)
    reads a
  {
    match c
    case Want(n) => a.brk + n + NS + GUARD + 2 * PAGE_SIZE <= WORD_LIMIT
    case WantZeros(n) => a.brk + n + NS + GUARD + 2 * PAGE_SIZE <= WORD_LIMIT
    case Resize(p, n) => (p != 0 ==> InUse(a.bs, p)) && a.brk + n + NS + GUARD + 2 * PAGE_SIZE <= WORD_LIMIT
    case Drop(p) => p != 0 ==> InUse(a.bs, p)
    case Store(p, o, w) => InUse(a.bs, p) && o + |w| <= SizeAt(a.bs, p - NS)
  }

  ghost predicate InUse(bs: seq<Block>, p: nat) {
    p >= NS && SizeAt(bs, p - NS) > 0
  }

  /** What a call did: nothing, or one operation on the map of blocks. */
  datatype Effect = Nothing | Did(op: Op)

  /** How the operation fits the call and its answer. */
  ghost predicate Fits(c: Call, op: Op, ptr: nat) {
    match c
    case Want(n) => op.Alloc? && op.p == ptr && op.n == n
    case WantZeros(n) => op.Alloc? && op.p == ptr && op.n == n && op.init == seq(n, _ => 0)
    case Resize(p, n) => if p == 0 then op.Alloc? && op.p == ptr && op.n == n else op.Realloc? && op.p == p && op.q == ptr && op.n == n
    case Drop(p) => op == Release(p)
    case Store(p, o, w) => op == Write(p, o, w)
  }

  /** The bytes of a block in use lie in memory. */
  lemma BlockInside(a: Allocator, p: nat)
    requires a.Valid() && InUse(a.bs, p)
    ensures p + SizeAt(a.bs, p - NS) + GUARD <= |a.ram|
  {
    hide Linked, Guarded, NodeAt, SizeAt;
    a.RamLimitOf();
    var i := UsedIndex(a.bs, a.start, a.brk, p - NS);
    assert FineAt(a.bs, a.brk, i);
    Inside(a.bs, a.start, a.brk, i);
  }

  lemma Holding(a: Allocator, p: nat, n: nat)
    requires a.Valid() && InUse(a.bs, p) && SizeAt(a.bs, p - NS) == n
    ensures p + n <= |a.ram| && Holds(Shown(a), p, a.ram[p..p + n])
  {
    hide SizeAt;
    BlockInside(a, p);
  }

  /** Whatever the program calls, the allocator stays in order, and the call changes nothing or is one
      step of a run. */
  method Perform(a: Allocator, c: Call, grant: bool) returns (ptr: nat, ghost e: Effect)
    requires a.Valid() && MayCall(a, c)
    modifies a
    ensures a.Valid() && |a.ram| == old(|a.ram|)
    ensures if e.Nothing? then Shown(a) == old(Shown(a)) else Does(old(Shown(a)), e.op, Shown(a)) && Fits(c, e.op, ptr)
    ensures e.Nothing? <==> if c.Drop? then c.p == 0 else !c.Store? && ptr == 0
  {
    hide Allocator.Valid, SizeAt, Added, Taken, Moved, KeepsBut, Raised, NoFit, Put, Holds;
    ghost var s := Shown(a);
    ptr, e := 0, Nothing;
    match c {
      case Want(n) =>
        ptr := a.Malloc(n, grant);
        if ptr != 0 {
          AddedSize(s.bs, s.m, a.bs, a.ram, ptr, n);
          Holding(a, ptr, n);
          e := Did(Alloc(ptr, n, a.ram[ptr..ptr + n]));
        }
      case WantZeros(n) =>
        ptr := a.Calloc(n, grant);
        if ptr != 0 {
          AddedSize(s.bs, s.m, a.bs, a.ram, ptr, n);
          Holding(a, ptr, n);
          assert a.ram[ptr..ptr + n] == seq(n, _ => 0);
          e := Did(Alloc(ptr, n, a.ram[ptr..ptr + n]));
        }
      case Resize(p, n) =>
        ptr := a.Realloc(p, n, grant);
        if ptr != 0 && p == 0 {
          AddedSize(s.bs, s.m, a.bs, a.ram, ptr, n);
          Holding(a, ptr, n);
          e := Did(Alloc(ptr, n, a.ram[ptr..ptr + n]));
        } else if ptr != 0 {
          MovedSize(s.bs, s.m, a.bs, a.ram, p, ptr, n);
          Holding(a, ptr, n);
          e := Did(Realloc(p, ptr, n, a.ram[ptr..ptr + n]));
        }
      case Drop(p) =>
        a.Free(p);
        if p != 0 {
          e := Did(Release(p));
        }
      case Store(p, o, w) =>
        a.UserWrite(p, o, w);
        e := Did(Write(p, o, w));
    }
  }

  /** A new heap is the empty map. */
  lemma NewHeapEmpty(a: Allocator)
    requires a.bs == [] || exists x :: a.bs == [Block(x, 0)]
    ensures Shows(Shown(a), map[])
  {
    forall p: nat
      ensures SizeAt(a.bs, p) == 0
    {
      assert a.bs != [] ==> a.bs[1..] == [];
    }
  }
}
