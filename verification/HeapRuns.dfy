/** What a run of allocations, releases, reallocations and writes means for the user of the heap:
    it is a map from pointers to byte sequences. */
module HeapRuns {
  import opened Words
  import opened HeapRam
  import opened HeapBlocks
  import opened HeapLinks
  import opened HeapSteps

  datatype State = State(m: Ram, bs: seq<Block>)

  type View = map<nat, seq<Byte>>

  /** The blocks in use, as the user knows them: pointer and bytes. */
  ghost predicate Shows(s: State, v: View) {
    forall p :: (p in v <==> p >= NS && SizeAt(s.bs, p - NS) > 0) && (p in v ==> Holds(s, p, v[p]))
  }

  ghost predicate Holds(s: State, p: nat, w: seq<Byte>) {
    p >= NS && |w| == SizeAt(s.bs, p - NS) && p + |w| + GUARD <= |s.m| && s.m[p..p + |w|] == w
  }

  datatype Op = Alloc(p: nat, n: nat, init: seq<Byte>) | Release(p: nat) | Realloc(p: nat, q: nat, n: nat, got: seq<Byte>)
              | Write(p: nat, o: nat, w: seq<Byte>)

  /** A call of the allocator that succeeded, or a write of the user; the bytes a new block starts
      with are part of the outcome. */
  ghost predicate Does(s: State, op: Op, t: State) {
    match op
    case Alloc(p, n, init) =>
      n > 0 && Added(s.bs, s.m, t.bs, t.m, p, n) && Holds(t, p, init)
    case Release(p) =>
      p >= NS && SizeAt(s.bs, p - NS) > 0 && Taken(s.bs, s.m, t.bs, t.m, p)
    case Realloc(p, q, n, got) =>
      n > 0 && p >= NS && SizeAt(s.bs, p - NS) > 0 && Moved(s.bs, s.m, t.bs, t.m, p, q, n) && Holds(t, q, got)
    case Write(p, o, w) =>
      p >= NS && SizeAt(s.bs, p - NS) > 0 && o + |w| <= SizeAt(s.bs, p - NS) && p + o + |w| <= |s.m|
      && t.bs == s.bs && t.m == Put(s.m, p + o, w) && KeepsBut(s.bs, s.m, t.m, p - NS)
  }

  /** Whether `op` can be answered like this. */
  predicate Answers(v: View, op: Op) {
    match op
    case Alloc(p, n, init) => n > 0 && p !in v && |init| == n
    case Release(p) => p in v
    case Realloc(p, q, n, got) =>
      n > 0 && p in v && (q == p || q !in v) && |got| == n
      && got[..Min(|v[p]|, n)] == v[p][..Min(|v[p]|, n)]
    case Write(p, o, w) => p in v && o + |w| <= |v[p]|
  }

  /** What `op` makes of the map. */
  function Apply(v: View, op: Op): View
    requires Answers(v, op)
  {
    match op
    case Alloc(p, n, init) => v[p := init]
    case Release(p) => v - {p}
    case Realloc(p, q, n, got) => (v - {p})[q := got]
    case Write(p, o, w) => v[p := v[p][..o] + w + v[p][o + |w|..]]
  }

  lemma KeptHolds(s: State, t: State, p: nat, w: seq<Byte>)
    requires Holds(s, p, w) && |t.m| == |s.m| && SizeAt(t.bs, p - NS) == SizeAt(s.bs, p - NS)
    requires User(t.m, p - NS, |w|) == User(s.m, p - NS, |w|)
    ensures Holds(t, p, w)
  {
    UserPrefix(s.m, t.m, p - NS, |w|);
  }

  lemma AllocShows(s: State, t: State, v: View, p: nat, n: nat, init: seq<Byte>)
    requires Shows(s, v) && Does(s, Alloc(p, n, init), t)
    ensures Answers(v, Alloc(p, n, init)) && Shows(t, Apply(v, Alloc(p, n, init)))
  {
    hide User, SizeAt;
    var u := v[p := init];
    forall x: nat
      ensures (x in u <==> x >= NS && SizeAt(t.bs, x - NS) > 0) && (x in u ==> Holds(t, x, u[x]))
    {
      if x != p && x in v {
        assert SizeAt(s.bs, x - NS) > 0;
        KeptHolds(s, t, x, v[x]);
      }
    }
  }

  lemma ReleaseShows(s: State, t: State, v: View, p: nat)
    requires Shows(s, v) && Does(s, Release(p), t)
    ensures Answers(v, Release(p)) && Shows(t, Apply(v, Release(p)))
  {
    hide User, SizeAt;
    var u := v - {p};
    forall x: nat
      ensures (x in u <==> x >= NS && SizeAt(t.bs, x - NS) > 0) && (x in u ==> Holds(t, x, u[x]))
    {
      if x != p && x in v {
        assert SizeAt(t.bs, x - NS) == SizeAt(s.bs, x - NS);
        KeptHolds(s, t, x, v[x]);
      }
    }
  }

  lemma ReallocShows(s: State, t: State, v: View, p: nat, q: nat, n: nat, got: seq<Byte>)
    requires Shows(s, v) && Does(s, Realloc(p, q, n, got), t)
    ensures Answers(v, Realloc(p, q, n, got)) && Shows(t, Apply(v, Realloc(p, q, n, got)))
  {
    hide User, SizeAt, KeepsBut, Holds;
    HeldSize(s, p, v[p]);
    ReallocAnswers(s, t, v[p], p, q, n, got);
    var u := (v - {p})[q := got];
    forall x: nat
      ensures (x in u <==> x >= NS && SizeAt(t.bs, x - NS) > 0) && (x in u ==> Holds(t, x, u[x]))
    {
      if x != p && x != q && x in v {
        HeldSize(s, x, v[x]);
        KeptBut(s.bs, s.m, t.m, p - NS, x - NS);
        KeptHolds(s, t, x, v[x]);
      }
    }
  }

  /** The first bytes of the new block are those of the old one. */
  lemma ReallocAnswers(s: State, t: State, was: seq<Byte>, p: nat, q: nat, n: nat, got: seq<Byte>)
    requires Holds(s, p, was) && Does(s, Realloc(p, q, n, got), t)
    ensures |got| == n && got[..Min(|was|, n)] == was[..Min(|was|, n)]
  {
    hide SizeAt, KeepsBut;
    var k := Min(|was|, n);
    SliceStart(t.m, q, got, k);
    SliceStart(s.m, p, was, k);
  }

  lemma SliceStart(m: Ram, p: nat, w: seq<Byte>, k: nat)
    requires p + |w| <= |m| && m[p..p + |w|] == w && k <= |w|
    ensures w[..k] == m[p..p + k]
  {
    assert m[p..p + |w|][..k] == m[p..p + k];
  }

  lemma WriteShows(s: State, t: State, v: View, p: nat, o: nat, w: seq<Byte>)
    requires Shows(s, v) && Does(s, Write(p, o, w), t)
    ensures Answers(v, Write(p, o, w)) && Shows(t, Apply(v, Write(p, o, w)))
  {
    hide User, SizeAt, Put, Holds, KeepsBut;
    assert Holds(s, p, v[p]);
    HeldSize(s, p, v[p]);
    WrittenHolds(s, t, p, v[p], o, w);
    var u := v[p := v[p][..o] + w + v[p][o + |w|..]];
    forall x: nat
      ensures (x in u <==> x >= NS && SizeAt(t.bs, x - NS) > 0) && (x in u ==> Holds(t, x, u[x]))
    {
      if x != p && x in v {
        HeldSize(s, x, v[x]);
        KeptBut(s.bs, s.m, t.m, p - NS, x - NS);
        KeptHolds(s, t, x, v[x]);
      }
    }
  }

  lemma HeldSize(s: State, p: nat, w: seq<Byte>)
    requires Holds(s, p, w)
    ensures p >= NS && |w| == SizeAt(s.bs, p - NS) && p + |w| <= |s.m|
  {
  }

  lemma KeptBut(bs: seq<Block>, m: Ram, r: Ram, x: nat, a: nat)
    requires KeepsBut(bs, m, r, x) && SizeAt(bs, a) > 0 && a != x
    ensures User(r, a, SizeAt(bs, a)) == User(m, a, SizeAt(bs, a))
  {
  }

  lemma WrittenHolds(s: State, t: State, p: nat, was: seq<Byte>, o: nat, w: seq<Byte>)
    requires Holds(s, p, was) && o + |w| <= |was| && t.bs == s.bs && t.m == Put(s.m, p + o, w)
    ensures Holds(t, p, was[..o] + w + was[o + |w|..])
  {
    var now := was[..o] + w + was[o + |w|..];
    forall k | 0 <= k < |now|
      ensures t.m[p..p + |now|][k] == now[k]
    {
      PutAt(s.m, p + o, w, p + k);
      assert s.m[p..p + |was|][k] == was[k];
    }
  }

  lemma StepShows(s: State, op: Op, t: State, v: View)
    requires Shows(s, v) && Does(s, op, t)
    ensures Answers(v, op) && Shows(t, Apply(v, op))
  {
    match op
    case Alloc(p, n, init) => AllocShows(s, t, v, p, n, init);
    case Release(p) => ReleaseShows(s, t, v, p);
    case Realloc(p, q, n, got) => ReallocShows(s, t, v, p, q, n, got);
    case Write(p, o, w) => WriteShows(s, t, v, p, o, w);
  }

  ghost predicate Run(ss: seq<State>, ops: seq<Op>) {
    |ss| == |ops| + 1 && forall k :: 0 <= k < |ops| ==> Does(ss[k], ops[k], ss[k + 1])
  }

  datatype Outcome = Some(view: View) | None

  function Play(v: View, ops: seq<Op>): Outcome
    decreases |ops|
  {
    if ops == [] then Some(v)
    else if Answers(v, ops[0]) then Play(Apply(v, ops[0]), ops[1..])
    else None
  }

  /** In every run the heap behaves as a map from pointers to byte sequences: a new block is a new
      pointer, a reallocation carries the first bytes over, a write changes what it names, and
      nothing else ever changes. */
  lemma {:induction false} RunRefines(ss: seq<State>, ops: seq<Op>, v: View)
    requires Run(ss, ops) && Shows(ss[0], v)
    ensures Play(v, ops).Some? && Shows(ss[|ops|], Play(v, ops).view)
    decreases |ops|
  {
    if ops != [] {
      assert Does(ss[0], ops[0], ss[1]);
      StepShows(ss[0], ops[0], ss[1], v);
      forall k | 0 <= k < |ops[1..]|
        ensures Does(ss[1..][k], ops[1..][k], ss[1..][k + 1])
      {
        assert Does(ss[k + 1], ops[k + 1], ss[k + 2]);
      }
      hide Does, Shows, Answers, Apply;
      RunRefines(ss[1..], ops[1..], Apply(v, ops[0]));
    }
  }
}
