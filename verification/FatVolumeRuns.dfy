/** What operations on open files mean for the volume as a whole: in every run the files are
    byte sequences with a position, each changed by the operations on it and by nothing else. */
module FatVolumeRuns {
  import opened Words
  import opened FatEntry
  import opened FatVolume
  import opened FatTable
  import opened FatSectors
  import opened FatContent
  import opened FatFileState
  import opened FatWriteState
  import opened FatSeekState

  /** An operation that wrote to no data sector outside chain `ch` left a file with other clusters
      as it was, whatever it did to the tables, as long as that file's chain is still there. */
  lemma OtherFile(y: Layout, o: Snap, e: Disk, g: Fat, ch: seq<nat>)
    requires Ok(y, o) && Sectored(e) && |g| == |o.f| && IsFile(g, o.ch)
    requires OnlyChain(o.d, e, y, ch) && AllClusters(ch) && Disjoint(ch, o.ch)
    ensures Ok(y, o.(d := e, f := g)) && BytesOf(y, o.(d := e, f := g)) == BytesOf(y, o)
  {
    var q := Sects(y, o.ch);
    forall k | 0 <= k < |q|
      ensures e[q[k]] == o.d[q[k]]
    {
      SectInData(y, |o.d|, o.f, o.ch, k);
      DisjointFiles(y, ch, o.ch, k);
    }
    FilFrame(o.d, e, y, o.f, o.ch, o.st);
  }

  /** What was asked of an open file, with what came of it.  A seek behind the end to `p` adds `more`, which
      is what the disk held there. */
  datatype Op = Read(data: Bytes) | Write(w: Bytes) | Seek(p: nat) | Extend(p: nat, more: Bytes) | Truncate

  /** `last` and `after` are the last clusters handed out before and after. */
  ghost predicate Does(y: Layout, op: Op, s: Snap, last: nat, t: Snap, after: nat) {
    match op
    case Read(data) => ReadDone(y, s, t, data)
    case Write(w) => WriteDone(y, s, t, w)
    case Seek(p) => SeekDone(y, s, t, p)
    case Extend(p, more) =>
      && s.st.objsize < p && SeekGrown(y, s, last, t, after, p)
      && (Ok(y, t) ==> BytesOf(y, t) == BytesOf(y, s) + more && t.st.fptr == |BytesOf(y, t)|)
    case Truncate => TruncateDone(y, s, t)
  }

  /** The one kind of operation that does not leave a file in order. */
  ghost predicate Misleads(y: Layout, op: Op, s: Snap, last: nat) {
    op.Extend? && Misled(y, s, last, op.p)
  }

  lemma GrownIsExtend(y: Layout, s: Snap, last: nat, t: Snap, after: nat, p: nat) returns (op: Op)
    requires s.st.objsize < p && SeekGrown(y, s, last, t, after, p)
    ensures op.Extend? && op.p == p && Does(y, op, s, last, t, after)
    ensures Ok(y, t) ==> s.st.objsize + |op.more| == t.st.fptr <= p
  {
    op := Extend(p, []);
    if Ok(y, t) {
      GrownBytes(y, s, last, t, after, p);
      hide SeekGrown, BytesOf, Ok;
      var b := BytesOf(y, t);
      assert b == b[..s.st.objsize] + b[s.st.objsize..];
      GrownReach(y, s, last, t, after, p);
      op := Extend(p, b[s.st.objsize..]);
    }
  }

  lemma GrownReach(y: Layout, s: Snap, last: nat, t: Snap, after: nat, p: nat)
    requires SeekGrown(y, s, last, t, after, p)
    ensures |s.ch| <= |t.ch| && OnlyChain(s.d, t.d, y, t.ch) && t.st.fptr <= p && Sectored(t.d)
    ensures Ok(y, t) <==> !Misled(y, s, last, p)
  {
  }

  function Longer(a: seq<nat>, b: seq<nat>): seq<nat> {
    if |a| <= |b| then b else a
  }

  lemma ReadReach(y: Layout, s: Snap, t: Snap)
    requires SameFile(y, s, t)
    ensures t.ch == s.ch && OnlyChain(s.d, t.d, y, s.ch) && Core(y, t)
  {
  }

  lemma WriteReach(y: Layout, s: Snap, t: Snap, w: Bytes)
    requires WriteDone(y, s, t, w)
    ensures |s.ch| <= |t.ch| && OnlyChain(s.d, t.d, y, t.ch) && Ok(y, t)
  {
  }

  lemma TruncateReach(y: Layout, s: Snap, t: Snap)
    requires TruncateDone(y, s, t)
    ensures |t.ch| <= |s.ch| && (|t.ch| == |s.ch| ==> t.ch == s.ch) && OnlyChain(s.d, t.d, y, s.ch) && Ok(y, t)
  {
    if s.st.fptr < s.st.objsize && Kept(s) == |s.ch| {
      assert s.ch[..Kept(s)] == s.ch;
    }
  }

  lemma InOrder(y: Layout, t: Snap)
    requires Core(y, t)
    ensures Sectored(t.d)
  {
  }

  /** No operation writes to a data sector outside its own file, and only one that is misled does not leave
      that in order. */
  lemma OnlyOwn(y: Layout, op: Op, s: Snap, last: nat, t: Snap, after: nat)
    requires Does(y, op, s, last, t, after)
    ensures (Ok(y, t) <==> !Misleads(y, op, s, last)) && Sectored(t.d) && OnlyChain(s.d, t.d, y, Longer(s.ch, t.ch))
  {
    hide OnlyChain, Core, Misled;
    match op
    case Read(data) =>
      ReadReach(y, s, t);
      InOrder(y, t);
    case Write(w) =>
      WriteReach(y, s, t, w);
      InOrder(y, t);
    case Seek(p) =>
      ReadReach(y, s, t);
      InOrder(y, t);
    case Extend(p, more) => GrownReach(y, s, last, t, after, p);
    case Truncate =>
      TruncateReach(y, s, t);
      InOrder(y, t);
  }

  // ---------- the volume and all its open files ----------

  /** A volume with the last cluster it handed out, and with one open file for each chain. */
  datatype Vol = Vol(d: Disk, f: Fat, last: nat, chains: seq<seq<nat>>, sts: seq<FilSt>)

  ghost function At(v: Vol, i: nat): Snap
    requires i < |v.chains| == |v.sts|
  {
    Snap(v.d, v.f, v.chains[i], v.sts[i])
  }

  ghost predicate VolOk(y: Layout, v: Vol) {
    && |v.sts| == |v.chains| && WellFormed(v.f, v.chains)
    && forall i :: 0 <= i < |v.chains| ==> Ok(y, At(v, i))
  }

  /** File `i` does `op`; no other file's fields or chain are touched, and the table stays a set of
      chains. */
  ghost predicate Step(y: Layout, v: Vol, i: nat, op: Op, w: Vol) {
    && i < |v.chains| == |v.sts| == |w.chains| == |w.sts|
    && w.chains == v.chains[i := w.chains[i]] && w.sts == v.sts[i := w.sts[i]]
    && WellFormed(w.f, w.chains) && |w.f| == |v.f|
    && Does(y, op, At(v, i), v.last, At(w, i), w.last)
  }

  /** What a file is for its user: bytes and a position. */
  datatype Stream = Stream(bytes: Bytes, pos: nat)

  ghost function StreamOf(y: Layout, s: Snap): Stream {
    Stream(BytesOf(y, s), s.st.fptr)
  }

  ghost function Streams(y: Layout, v: Vol): seq<Stream>
    requires |v.chains| == |v.sts|
  {
    seq(|v.chains|, i requires 0 <= i < |v.chains| => StreamOf(y, At(v, i)))
  }

  /** Whether `op` can be answered like this. */
  predicate Answers(a: Stream, op: Op) {
    match op
    case Read(data) => a.pos + |data| <= |a.bytes| && data == a.bytes[a.pos..a.pos + |data|]
    case Write(w) => a.pos <= |a.bytes|
    case Seek(p) => p <= |a.bytes|
    case Extend(p, more) => true
    case Truncate => a.pos <= |a.bytes|
  }

  /** What `op` makes of a byte sequence with a position. */
  function Apply(a: Stream, op: Op): Stream
    requires Answers(a, op)
  {
    match op
    case Read(data) => a.(pos := a.pos + |data|)
    case Write(w) => Stream(Overwrite(a.bytes, a.pos, w), a.pos + |w|)
    case Seek(p) => a.(pos := p)
    case Extend(p, more) => Stream(a.bytes + more, |a.bytes| + |more|)
    case Truncate => a.(bytes := a.bytes[..a.pos])
  }

  lemma DoesApply(y: Layout, op: Op, s: Snap, last: nat, t: Snap, after: nat)
    requires Ok(y, s) && Does(y, op, s, last, t, after) && Ok(y, t)
    ensures Answers(StreamOf(y, s), op) && StreamOf(y, t) == Apply(StreamOf(y, s), op)
  {
    hide OnlyChain;
    match op
    case Read(data) =>
    case Write(w) =>
    case Seek(p) =>
    case Extend(p, more) =>
    case Truncate =>
  }

  lemma AllClustersOf(f: Fat, ch: seq<nat>)
    requires IsFile(f, ch)
    ensures AllClusters(ch)
  {
  }

  lemma WellFormedFacts(f: Fat, chains: seq<seq<nat>>, i: nat, j: nat)
    requires WellFormed(f, chains) && i < |chains| && j < |chains| && i != j
    ensures IsFile(f, chains[i]) && IsFile(f, chains[j]) && Disjoint(chains[i], chains[j])
  {
  }

  /** Reading, writing, seeking or truncating file `i` leaves every other open file of the volume
      with the same bytes and the same position. */
  lemma OthersUntouched(y: Layout, v: Vol, i: nat, op: Op, w: Vol, j: nat)
    requires VolOk(y, v) && Step(y, v, i, op, w) && j < |v.chains| && i != j
    ensures Ok(y, At(w, j)) && StreamOf(y, At(w, j)) == StreamOf(y, At(v, j))
  {
    var s, t, o := At(v, i), At(w, i), At(v, j);
    assert Ok(y, o) && w.chains[j] == v.chains[j] && w.sts[j] == v.sts[j];
    OnlyOwn(y, op, s, v.last, t, w.last);
    WellFormedFacts(v.f, v.chains, i, j);
    WellFormedFacts(w.f, w.chains, i, j);
    AllClustersOf(v.f, s.ch);
    AllClustersOf(w.f, t.ch);
    hide WellFormed, Ok, BytesOf, OnlyChain, Disjoint, IsFile, Does;
    OtherFile(y, o, w.d, w.f, Longer(s.ch, t.ch));
    assert At(w, j) == o.(d := w.d, f := w.f);
  }

  /** An operation keeps the volume in order if and only if it is not misled, and then answers as a byte
      sequence with a position would. */
  lemma StepKeeps(y: Layout, v: Vol, i: nat, op: Op, w: Vol)
    requires VolOk(y, v) && Step(y, v, i, op, w)
    ensures VolOk(y, w) <==> !Misleads(y, op, At(v, i), v.last)
    ensures i < |Streams(y, v)|
    ensures !Misleads(y, op, At(v, i), v.last) ==>
              Answers(Streams(y, v)[i], op) && Streams(y, w) == Streams(y, v)[i := Apply(Streams(y, v)[i], op)]
  {
    assert Ok(y, At(v, i));
    OnlyOwn(y, op, At(v, i), v.last, At(w, i), w.last);
    if Ok(y, At(w, i)) {
      DoesApply(y, op, At(v, i), v.last, At(w, i), w.last);
    }
    hide Ok, StreamOf, WellFormed, Does, Misleads;
    forall j | 0 <= j < |v.chains| && j != i
      ensures Ok(y, At(w, j)) && StreamOf(y, At(w, j)) == StreamOf(y, At(v, j))
    {
      OthersUntouched(y, v, i, op, w, j);
    }
  }

  // ---------- whole runs ----------

  datatype Move = Move(who: nat, op: Op)

  ghost predicate Run(y: Layout, vs: seq<Vol>, ms: seq<Move>) {
    |vs| == |ms| + 1 && forall k :: 0 <= k < |ms| ==> VolOk(y, vs[k]) ==> Step(y, vs[k], ms[k].who, ms[k].op, vs[k + 1])
  }

  /** The move is a seek behind the end that is misled by the buffer it starts with. */
  ghost predicate GoesWrong(y: Layout, v: Vol, m: Move) {
    m.who < |v.chains| == |v.sts| && Misleads(y, m.op, At(v, m.who), v.last)
  }

  /** In a run all files are in order at all times if and only if no seek behind the end is misled. */
  lemma {:induction false} RunInOrder(y: Layout, vs: seq<Vol>, ms: seq<Move>, n: nat)
    requires Run(y, vs, ms) && VolOk(y, vs[0]) && n <= |ms|
    ensures (forall k :: 0 <= k <= n ==> VolOk(y, vs[k])) <==> forall k :: 0 <= k < n ==> !GoesWrong(y, vs[k], ms[k])
  {
    hide VolOk, GoesWrong, Step;
    if n > 0 {
      RunInOrder(y, vs, ms, n - 1);
      if VolOk(y, vs[n - 1]) {
        MoveKeeps(y, vs[n - 1], ms[n - 1], vs[n]);
      }
    }
  }

  lemma MoveKeeps(y: Layout, v: Vol, m: Move, w: Vol)
    requires VolOk(y, v) && Step(y, v, m.who, m.op, w)
    ensures VolOk(y, w) <==> !GoesWrong(y, v, m)
  {
    hide VolOk, Misleads;
    StepKeeps(y, v, m.who, m.op, w);
  }

  /** The streams after the moves, if every one of them can be answered as it was. */
  datatype Outcome = Some(streams: seq<Stream>) | None

  function Play(a: seq<Stream>, ms: seq<Move>): Outcome
    decreases |ms|
  {
    if ms == [] then Some(a)
    else
      var m := ms[0];
      if m.who < |a| && Answers(a[m.who], m.op) then Play(a[m.who := Apply(a[m.who], m.op)], ms[1..])
      else None
  }

  /** In every run of reads, writes, seeks and truncations on the open files of a volume, in which no seek
      behind the end is misled, the files behave as independent byte sequences with a position. */
  lemma {:induction false} RunRefines(y: Layout, vs: seq<Vol>, ms: seq<Move>)
    requires Run(y, vs, ms) && VolOk(y, vs[0]) && forall k :: 0 <= k < |ms| ==> !GoesWrong(y, vs[k], ms[k])
    ensures VolOk(y, vs[|ms|])
    ensures Play(Streams(y, vs[0]), ms) == Some(Streams(y, vs[|ms|]))
    decreases |ms|
  {
    if ms != [] {
      var m := ms[0];
      assert Step(y, vs[0], m.who, m.op, vs[1]) && !GoesWrong(y, vs[0], m);
      StepKeeps(y, vs[0], m.who, m.op, vs[1]);
      hide VolOk, Step, GoesWrong, Answers, Apply;
      forall k | 0 <= k < |ms[1..]|
        ensures VolOk(y, vs[1..][k]) ==> Step(y, vs[1..][k], ms[1..][k].who, ms[1..][k].op, vs[1..][k + 1])
        ensures !GoesWrong(y, vs[1..][k], ms[1..][k])
      {
        assert VolOk(y, vs[k + 1]) ==> Step(y, vs[k + 1], ms[k + 1].who, ms[k + 1].op, vs[k + 2]);
      }
      RunRefines(y, vs[1..], ms[1..]);
    }
  }

  /** Writing, seeking back and reading as much yields what was written. */
  lemma WriteSeekRead(y: Layout, s: Snap, t: Snap, u: Snap, v: Snap, w: Bytes, data: Bytes)
    requires WriteDone(y, s, t, w) && SeekDone(y, t, u, s.st.fptr) && ReadDone(y, u, v, data) && |data| == |w|
    ensures data == w
  {
    var p := s.st.fptr;
    var b := BytesOf(y, u);
    assert b == Overwrite(BytesOf(y, s), p, w);
    assert data == b[p..p + |w|];
  }
}
