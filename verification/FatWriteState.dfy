/** What each step of writing and truncating does to the bytes of an open file and to the table. */
module FatWriteState {
  import opened Words
  import opened FatEntry
  import opened FatVolume
  import opened FatTable
  import opened FatChain
  import opened FatSectors
  import opened FatContent
  import opened FatFileState

  /** A write of `w`: exactly these bytes of the file are overwritten or appended. */
  ghost predicate WriteDone(y: Layout, s: Snap, t: Snap, w: Bytes) {
    && Ok(y, t)
    && s.st.fptr <= |BytesOf(y, s)| && BytesOf(y, t) == Overwrite(BytesOf(y, s), s.st.fptr, w)
    && t.st.fptr == s.st.fptr + |w|
    && s.ch <= t.ch && OnlyChain(s.d, t.d, y, t.ch)
  }

  lemma NothingWritten(y: Layout, s: Snap)
    requires Ok(y, s)
    ensures WriteDone(y, s, s, [])
  {
  }

  lemma AfterWrite(y: Layout, s: Snap, t: Snap, w: Bytes)
    requires WriteDone(y, s, t, w)
    ensures Ok(y, t) && t.st.fptr == s.st.fptr + |w| && t.st.fptr <= t.st.objsize && s.ch <= t.ch
    ensures t.st.objsize == if s.st.fptr + |w| > |BytesOf(y, s)| then s.st.fptr + |w| else |BytesOf(y, s)|
  {
  }

  lemma OnlyGrows(d: Disk, e: Disk, y: Layout, a: seq<nat>, b: seq<nat>)
    requires OnlyChain(d, e, y, a) && a <= b
    ensures OnlyChain(d, e, y, b)
  {
    SectsPrefix(y, b, |a|);
    assert b[..|a|] == a;
    forall s | s in Sects(y, a)
      ensures s in Sects(y, b)
    {
    }
  }

  /** Two writes in a row. */
  lemma WriteTwice(y: Layout, s: Snap, t: Snap, u: Snap, a: Bytes, b: Bytes)
    requires WriteDone(y, s, t, a) && WriteDone(y, t, u, b)
    ensures WriteDone(y, s, u, a + b)
  {
    hide Core, AtCluster, AtSector, BytesOf, Ok;
    OnlyGrows(s.d, t.d, y, t.ch, u.ch);
    OnlyTwice(s.d, t.d, u.d, y, u.ch);
    var w, c, p := a + b, BytesOf(y, s), s.st.fptr;
    assert w[..|a|] == a && w[|a|..] == b;
    OverwriteTwice(c, p, w, |a|);
  }

  // ---------- single steps ----------

  function Larger(a: nat, b: nat): nat {
    if a > b then a else b
  }

  /** The file after `w` was put into the sector in the buffer. */
  ghost function Wrote(s: Snap, w: Bytes): Snap {
    var c := s.st.cache;
    var p := s.st.fptr;
    if p % SS <= |c.buf| then
      s.(st := s.st.(fptr := p + |w|, objsize := Larger(p + |w|, s.st.objsize),
                     cache := Cache(true, c.sect, Overwrite(c.buf, p % SS, w))))
    else s
  }

  lemma BufferedWrite(y: Layout, s: Snap, w: Bytes)
    requires Core(y, s) && 0 < |w| && s.st.fptr % SS + |w| <= SS
    requires s.st.fptr / SS < |Sects(y, s.ch)| && Sects(y, s.ch)[s.st.fptr / SS] == s.st.cache.sect
    requires AtCluster(y, s.ch, Moved(s, |w|).st) && AtSector(Sects(y, s.ch), Moved(s, |w|).st)
    ensures WriteDone(y, s, Wrote(s, w), w)
  {
    hide Content, Overwrite, Sects, Layout.Sound, IsFile, Distinct;
    DistinctSects(y, s.f, s.ch);
    PatchWrites(s.d, Sects(y, s.ch), s.st.cache, s.st.objsize, s.st.fptr, w);
  }

  /** Writing on in the middle of a sector. */
  lemma MidWrite(y: Layout, s: Snap, w: Bytes)
    requires Ok(y, s) && s.st.fptr % SS != 0 && 0 < |w| && s.st.fptr % SS + |w| <= SS
    ensures WriteDone(y, s, Wrote(s, w), w)
  {
    MidSector(y, s.ch, s.st, |w|);
    BufferedWrite(y, s, w);
  }

  /** The clean buffer made to stand for a sector behind the end of the file, without loading. */
  ghost function Retargeted(s: Snap, sect: nat): Snap {
    s.(st := s.st.(cache := s.st.cache.(sect := sect)))
  }

  lemma RetargetedSame(y: Layout, s: Snap, csect: nat, sect: nat)
    requires Core(y, s) && !s.st.cache.dirty && Standing(y, s.ch, s.st, csect)
    requires sect == y.ClusterSector(s.st.clust) + csect && (s.st.cache.sect == sect || s.st.fptr >= s.st.objsize)
    ensures SameFile(y, s, Retargeted(s, sect))
  {
    var q := Sects(y, s.ch);
    var c := s.st.cache.(sect := sect);
    DistinctSects(y, s.f, s.ch);
    StandingSector(y, s.f, s.ch, s.st, csect);
    assert CacheOk(s.d, q, c, s.st.objsize) by {
      if s.st.cache.sect != sect {
        forall i | 0 <= i < |q| && i * SS < s.st.objsize
          ensures q[i] != sect
        {
          assert i != s.st.fptr / SS;
        }
      }
    }
    SameData(s.d, q, s.st.cache, s.d, q, c, s.st.objsize);
  }

  /** Writing at the start of the sector the buffer stands for. */
  lemma StartWrite(y: Layout, s: Snap, csect: nat, w: Bytes)
    requires Core(y, s) && Standing(y, s.ch, s.st, csect) && 0 < |w| <= SS
    requires s.st.cache.sect == y.ClusterSector(s.st.clust) + csect
    ensures WriteDone(y, s, Wrote(s, w), w)
  {
    StandingInBuffer(y, s.f, s.ch, s.st, csect, |w|);
    BufferedWrite(y, s, w);
  }

  /** The file after whole sectors went past the clean buffer. */
  ghost function WroteRun(s: Snap, sect: nat, cc: nat, w: Bytes): Snap
    requires Sectored(s.d) && |w| == cc * SS
  {
    var p := s.st.fptr;
    Snap(WriteRun(s.d, sect, cc, w), s.f, s.ch,
         s.st.(fptr := p + |w|, objsize := Larger(p + |w|, s.st.objsize),
               cache := Refilled(s.st.cache, sect, cc, w)))
  }

  lemma DirectWrite(y: Layout, s: Snap, csect: nat, sect: nat, cc: nat, w: Bytes)
    requires Core(y, s) && !s.st.cache.dirty && Standing(y, s.ch, s.st, csect)
    requires 0 < cc && csect + cc <= y.csize && |w| == cc * SS
    requires sect == y.ClusterSector(s.st.clust) + csect && sect + cc <= |s.d|
    ensures WriteDone(y, s, WroteRun(s, sect, cc, w), w)
  {
    hide Content, Overwrite, CacheOk, OnlyChain, Adjacent, WriteRun, Sects, Refilled, Layout.Sound, IsFile, Distinct;
    DiskOk(y, s);
    var k := s.st.fptr / SS;
    var q := Sects(y, s.ch);
    DistinctSects(y, s.f, s.ch);
    StandingSector(y, s.f, s.ch, s.st, csect);
    StandingRun(y, s.f, s.ch, s.st, csect, cc);
    assert q[k] == sect && k * SS == s.st.fptr;
    DirectWrites(s.d, q, s.st.cache, s.st.objsize, k, cc, w);
    StepSectors(y, s.ch, s.st, csect, cc);
    RunInChain(s.d, y, s.ch, k, cc, w);
  }

  lemma DiskOk(y: Layout, s: Snap)
    requires Core(y, s)
    ensures Sectored(s.d)
  {
  }

  lemma RunInChain(d: Disk, y: Layout, ch: seq<nat>, k: nat, cc: nat, w: Bytes)
    requires Sectored(d) && |w| == cc * SS && Adjacent(Sects(y, ch), k, cc)
    ensures OnlyChain(d, WriteRun(d, Sects(y, ch)[k], cc, w), y, ch)
  {
    var q := Sects(y, ch);
    forall s | q[k] <= s < q[k] + cc
      ensures s in q
    {
      assert q[k + (s - q[k])] == s;
    }
  }

  lemma SameThenWrite(y: Layout, s: Snap, t: Snap, u: Snap, w: Bytes)
    requires SameFile(y, s, t) && t.st.fptr == s.st.fptr && Core(y, s) && WriteDone(y, t, u, w)
    ensures WriteDone(y, s, u, w)
  {
    hide Core, BytesOf, AtCluster, AtSector;
    OnlyGrows(s.d, t.d, y, s.ch, u.ch);
    OnlyTwice(s.d, t.d, u.d, y, u.ch);
  }

  // ---------- allocating ----------

  /** The volume's table is exactly the chains of its files, no entry is nonsense, the count of
      free clusters is exact or unknown, and no directory cluster is free. */
  ghost predicate AllocOk(f: Fat, chains: seq<seq<nat>>, free: nat, dirs: set<nat>) {
    && WellFormed(f, chains)
    && Sane(f)
    && CountsFree(free, f)
    && forall c :: c in dirs && c < |f| ==> f[c] != 0
  }

  /** What `CreateChain` is asked for in front of the next cluster to write. */
  ghost function Behind(s: Snap): nat {
    if s.st.fptr == 0 then 0 else s.st.clust
  }

  /** Whether the next cluster to write is part of the file already. */
  ghost predicate HasNext(s: Snap) {
    NextIndex(s) < |s.ch|
  }

  /** At a cluster boundary the next cluster is in the chain or has to be appended to it. */
  lemma BoundaryIndex(y: Layout, s: Snap)
    requires Ok(y, s) && s.st.fptr % SS == 0 && s.st.fptr / SS % y.csize == 0
    ensures NextIndex(s) <= |s.ch| && s.st.fptr / SS == NextIndex(s) * y.csize
  {
    if s.st.fptr > 0 {
      BoundaryOffset(y, s.ch, s.st);
    } else {
      assert NextIndex(s) * y.csize == 0;
    }
  }

  /** The file at the start of its cluster `r`. */
  ghost function AtNext(s: Snap, d: Disk, g: Fat, r: nat): Snap {
    Snap(d, g, if HasNext(s) then s.ch else s.ch + [r],
         s.st.(clust := r, ci := NextIndex(s), sclust := if s.ch == [] then r else s.st.sclust))
  }

  lemma ExistingNext(y: Layout, s: Snap, d: Disk)
    requires Ok(y, s) && s.st.fptr % SS == 0 && s.st.fptr / SS % y.csize == 0 && HasNext(s)
    requires Sectored(d) && SameButFat(s.d, d, y)
    ensures SameFile(y, s, AtNext(s, d, s.f, NextClust(s)))
    ensures Standing(y, s.ch, AtNext(s, d, s.f, NextClust(s)).st, 0)
    ensures s.st.sclust == s.ch[0]
  {
    BoundaryIndex(y, s);
    OffFatSame(y, s, d);
  }

  /** A fresh cluster appended to the file keeps its bytes. */
  lemma FreshCluster(y: Layout, s: Snap, d: Disk, g: Fat, r: nat, eoc: nat)
    requires Core(y, s) && Sectored(d) && SameButFat(s.d, d, y)
    requires 2 <= r < |s.f| && s.f[r] == 0 && eoc >= |s.f| && g == Stretched(s.f, s.ch, r, eoc)
    ensures var t := Snap(d, g, s.ch + [r], s.st.(sclust := if s.ch == [] then r else s.st.sclust));
            Core(y, t) && BytesOf(y, t) == BytesOf(y, s)
  {
    StretchedIsChain(s.f, s.ch, r, eoc);
    OffFatSame(y, s, d);
    SectsAppend(y, s.ch, r);
    var t := Snap(d, g, s.ch + [r], s.st.(sclust := if s.ch == [] then r else s.st.sclust));
    var more := ClusterRun(y, r);
    var q := Sects(y, s.ch);
    forall k | 0 <= k < |q + more|
      ensures (q + more)[k] < |d|
    {
      SectInData(y, |d|, g, t.ch, k);
    }
    AppendKeeps(d, q, s.st.cache, s.st.objsize, more);
  }

  /** There the next byte goes to its start. */
  lemma FreshNext(y: Layout, s: Snap, d: Disk, g: Fat, r: nat, eoc: nat)
    requires Ok(y, s) && s.st.fptr % SS == 0 && s.st.fptr / SS % y.csize == 0 && !HasNext(s)
    requires Sectored(d) && SameButFat(s.d, d, y)
    requires 2 <= r < |s.f| && s.f[r] == 0 && eoc >= |s.f| && g == Stretched(s.f, s.ch, r, eoc)
    ensures var t := AtNext(s, d, g, r);
            && Core(y, t) && BytesOf(y, t) == BytesOf(y, s) && Standing(y, t.ch, t.st, 0)
  {
    BoundaryIndex(y, s);
    FreshCluster(y, s, d, g, r, eoc);
    var u := Snap(d, g, s.ch + [r], s.st.(sclust := if s.ch == [] then r else s.st.sclust));
    EnteredSame(y, u, r, NextIndex(s));
    assert AtNext(s, d, g, r) == Entered(u, r, NextIndex(s));
  }

  /** Appending for file `me` keeps the volume's table in order. */
  lemma AllocKept(f: Fat, g: Fat, chains: seq<seq<nat>>, me: nat, free: nat, after: nat, dirs: set<nat>, r: nat, eoc: nat)
    requires AllocOk(f, chains, free, dirs) && me < |chains| && eoc >= |f| > 2 && eoc > 1
    requires Allocation(f, g, free, if chains[me] == [] then 0 else chains[me][|chains[me]| - 1], r, eoc)
    requires CountsFree(after, g)
    ensures r == 0 <==> NoneFree(f)
    ensures r == 0 ==> g == f && AllocOk(g, chains, after, dirs)
    ensures r != 0 ==> 2 <= r < |f| && f[r] == 0 && g == Stretched(f, chains[me], r, eoc)
    ensures r != 0 ==> AllocOk(g, chains[me := chains[me] + [r]], after, dirs) && r !in dirs
  {
    hide WellFormed, Sane, CountsFree, Allocation, NoneFree, Stretched;
    AllocationKeeps(f, g, chains, me, free, r, eoc);
    if r != 0 {
      StretchUses(f, chains, me, r, eoc);
    }
  }

  /** Appending frees no cluster. */
  lemma StretchUses(f: Fat, chains: seq<seq<nat>>, me: nat, r: nat, eoc: nat)
    requires WellFormed(f, chains) && me < |chains| && 2 <= r < |f| && f[r] == 0 && eoc > 1
    ensures IsFile(f, chains[me])
    ensures var g := Stretched(f, chains[me], r, eoc); |g| == |f| && forall c :: 0 <= c < |f| && f[c] != 0 ==> g[c] != 0
  {
  }

  /** Standing at the next place to write: the same bytes, perhaps a longer chain. */
  ghost predicate Placed(y: Layout, s: Snap, t: Snap, csect: nat) {
    && Core(y, t) && BytesOf(y, t) == BytesOf(y, s) && Standing(y, t.ch, t.st, csect)
    && s.ch <= t.ch && OnlyChain(s.d, t.d, y, t.ch)
    && t.st.fptr == s.st.fptr && t.st.objsize == s.st.objsize && t.st.cache == s.st.cache
  }

  lemma PlacedExisting(y: Layout, s: Snap, d: Disk)
    requires Ok(y, s) && s.st.fptr % SS == 0 && s.st.fptr / SS % y.csize == 0 && HasNext(s)
    requires Sectored(d) && SameButFat(s.d, d, y)
    ensures Placed(y, s, AtNext(s, d, s.f, NextClust(s)), 0)
  {
    ExistingNext(y, s, d);
  }

  lemma PlacedFresh(y: Layout, s: Snap, d: Disk, g: Fat, r: nat, eoc: nat)
    requires Ok(y, s) && s.st.fptr % SS == 0 && s.st.fptr / SS % y.csize == 0 && !HasNext(s)
    requires Sectored(d) && SameButFat(s.d, d, y)
    requires 2 <= r < |s.f| && s.f[r] == 0 && eoc >= |s.f| && g == Stretched(s.f, s.ch, r, eoc)
    ensures Placed(y, s, AtNext(s, d, g, r), 0)
  {
    FreshNext(y, s, d, g, r, eoc);
  }

  lemma PlacedInside(y: Layout, s: Snap)
    requires Ok(y, s) && s.st.fptr % SS == 0 && s.st.fptr / SS % y.csize != 0
    ensures Placed(y, s, s, s.st.fptr / SS % y.csize)
  {
    SameCluster(y, s.ch, s.st);
  }

  /** The file's clusters after following or stretching its chain with outcome `r`. */
  ghost function GrownBy(ch: seq<nat>, r: nat, has: bool): seq<nat> {
    if has || r == 0 then ch else ch + [r]
  }

  /** What following or stretching the chain behind `clst` did: `has` says that a next cluster was
      there already. */
  ghost predicate Stretch(f: Fat, ch: seq<nat>, g: Fat, clst: nat, r: nat, has: bool, eoc: nat) {
    if has then clst < |f| && r == f[clst] && g == f
    else if r == 0 then NoneFree(f) && g == f
    else 2 <= r < |f| && f[r] == 0 && IsFile(f, ch) && g == Stretched(f, ch, r, eoc)
  }

  lemma StretchStep(f: Fat, g: Fat, chains: seq<seq<nat>>, me: nat, free: nat, after: nat, dirs: set<nat>,
                    clst: nat, r: nat, has: bool, eoc: nat)
    requires AllocOk(f, chains, free, dirs) && me < |chains| && eoc >= |f| > 2 && eoc > 1 && NotDirs(chains[me], dirs)
    requires has ==> 2 <= clst < |f| && 2 <= f[clst] < |f|
    requires !has ==> clst == if chains[me] == [] then 0 else chains[me][|chains[me]| - 1]
    requires Allocation(f, g, free, clst, r, eoc) && CountsFree(after, g)
    ensures AllocOk(g, chains[me := GrownBy(chains[me], r, has)], after, dirs)
    ensures NotDirs(GrownBy(chains[me], r, has), dirs) && Stretch(f, chains[me], g, clst, r, has, eoc)
  {
    if has {
      assert chains[me := chains[me]] == chains;
    } else {
      AllocKept(f, g, chains, me, free, after, dirs, r, eoc);
      assert chains[me := chains[me]] == chains;
    }
  }

  /** Which cluster is handed out behind `clst` on a table whose last one handed out was `last`, and what
      that is afterwards. */
  ghost predicate Hands(f: Fat, last: nat, clst: nat, r: nat, has: bool, after: nat) {
    && (has ==> after == last)
    && (!has ==> |f| > 2 && (clst == 0 || 2 <= clst < |f|) && r == Picked(f, last, clst) && after == if r == 0 then last else r)
  }

  /** What allocating starts from: the table, the last cluster handed out, and the clusters of a file. */
  datatype Supply = Supply(f: Fat, last: nat, ch: seq<nat>)

  ghost function LastOf(ch: seq<nat>): nat {
    if ch == [] then 0 else ch[|ch| - 1]
  }

  /** After the file has got clusters until it has `n`, or as many as there are. */
  ghost function Handed(a: Supply, n: nat, eoc: nat): (b: Supply)
    decreases n - |a.ch|
  {
    var c := LastOf(a.ch);
    if |a.ch| >= n || |a.f| <= 2 || !IsFile(a.f, a.ch) then a
    else
      var r := Picked(a.f, a.last, c);
      if r < 2 then a else Handed(Supply(Stretched(a.f, a.ch, r, eoc), r, a.ch + [r]), n, eoc)
  }

  /** One cluster more on the way there. */
  lemma HandedStep(f: Fat, last: nat, ch: seq<nat>, g: Fat, r: nat, after: nat, n: nat, eoc: nat)
    requires Hands(f, last, LastOf(ch), r, false, after) && Stretch(f, ch, g, LastOf(ch), r, false, eoc) && r != 0 && |ch| < n
    ensures Handed(Supply(f, last, ch), n, eoc) == Handed(Supply(g, after, ch + [r]), n, eoc)
  {
  }

  /** There is none left. */
  lemma HandedAll(f: Fat, last: nat, ch: seq<nat>, n: nat, eoc: nat)
    requires |f| > 2 && Sane(f) && NoneFree(f)
    ensures Handed(Supply(f, last, ch), n, eoc) == Supply(f, last, ch)
  {
    if IsFile(f, ch) {
      PickedNone(f, last, LastOf(ch));
    }
  }

  lemma HandedEnough(a: Supply, n: nat, eoc: nat)
    requires |a.ch| >= n
    ensures Handed(a, n, eoc) == a
  {
  }

  /** A table after one cluster was handed out. */
  lemma StretchFacts(f: Fat, ch: seq<nat>, r: nat, eoc: nat)
    requires Sane(f) && IsFile(f, ch) && 2 <= r < |f| && f[r] == 0 && eoc >= |f| && eoc > 1
    ensures var g := Stretched(f, ch, r, eoc);
            |g| == |f| && IsFile(g, ch + [r]) && Sane(g) && forall c :: 0 <= c < |f| && g[c] == 0 ==> f[c] == 0
  {
    StretchedIsChain(f, ch, r, eoc);
  }

  /** A file keeps its clusters, and what it gets in addition was free; it is short only of clusters that
      there are none of. */
  lemma {:induction false} HandedMeans(a: Supply, n: nat, eoc: nat)
    requires |a.f| > 2 && Sane(a.f) && IsFile(a.f, a.ch) && eoc >= |a.f| && eoc > 1
    ensures var b := Handed(a, n, eoc);
            && a.ch <= b.ch && |b.f| == |a.f| && IsFile(b.f, b.ch) && Sane(b.f)
            && (forall i :: |a.ch| <= i < |b.ch| ==> 2 <= b.ch[i] < |a.f| && a.f[b.ch[i]] == 0)
            && (|b.ch| < n ==> NoneFree(b.f)) && (|b.ch| > n ==> b.ch == a.ch)
    decreases n - |a.ch|
  {
    hide Stretched, Picked, NoneFree, Sane, IsChain;
    var c := LastOf(a.ch);
    LastIn(a.f, a.ch);
    PickedAll(a.f, a.last, c);
    PickedNone(a.f, a.last, c);
    var r := Picked(a.f, a.last, c);
    if |a.ch| < n && r >= 2 {
      var g := Stretched(a.f, a.ch, r, eoc);
      StretchFacts(a.f, a.ch, r, eoc);
      HandedMeans(Supply(g, r, a.ch + [r]), n, eoc);
      var b := Handed(a, n, eoc);
      forall i | |a.ch| <= i < |b.ch|
        ensures 2 <= b.ch[i] < |a.f| && a.f[b.ch[i]] == 0
      {
        assert b.ch[|a.ch|] == (a.ch + [r])[|a.ch|];
      }
    }
  }

  lemma LastIn(f: Fat, ch: seq<nat>)
    requires IsFile(f, ch)
    ensures LastOf(ch) == 0 || 2 <= LastOf(ch) < |f|
  {
  }

  lemma AsksWell(f: Fat, chains: seq<seq<nat>>, me: nat, free: nat, dirs: set<nat>, clst: nat, has: bool)
    requires AllocOk(f, chains, free, dirs) && me < |chains| && |f| > 2
    requires has ==> 2 <= clst < |f| && 2 <= f[clst] < |f|
    requires !has ==> clst == if chains[me] == [] then 0 else chains[me][|chains[me]| - 1]
    ensures NeedsCluster(f, clst) <==> !has
    ensures clst == 0 || 2 <= clst < |f|
  {
    assert IsFile(f, chains[me]);
  }

  lemma HandsOut(f: Fat, chains: seq<seq<nat>>, me: nat, free: nat, dirs: set<nat>, last: nat, clst: nat, r: nat, has: bool, after: nat)
    requires AllocOk(f, chains, free, dirs) && |f| > 2 && (clst == 0 || 2 <= clst < |f|) && (NeedsCluster(f, clst) <==> !has)
    requires NeedsCluster(f, clst) && free != 0 ==> r == Picked(f, last, clst)
    requires NeedsCluster(f, clst) && free == 0 ==> r == 0
    requires after == if NeedsCluster(f, clst) && r >= 2 then r else last
    ensures Hands(f, last, clst, r, has, after)
  {
    PickedNone(f, last, clst);
    if free == 0 {
      FreeBelowZero(f, |f|);
    }
  }

  /** What the file system knows when it asks for the next cluster to write. */
  lemma AskFacts(y: Layout, s: Snap)
    requires Ok(y, s) && s.st.fptr % SS == 0 && s.st.fptr / SS % y.csize == 0
    ensures HasNext(s) && s.st.fptr > 0 ==>
              2 <= s.st.clust < |s.f| && s.f[s.st.clust] == NextClust(s) && 2 <= NextClust(s) < |s.f|
    ensures !HasNext(s) ==> Behind(s) == if s.ch == [] then 0 else s.ch[|s.ch| - 1]
    ensures Behind(s) == if s.st.fptr == 0 then 0 else s.st.clust
    ensures s.st.fptr == 0 ==> (HasNext(s) <==> s.st.sclust != 0)
    ensures s.st.fptr == 0 && HasNext(s) ==> s.st.sclust == NextClust(s) && NextClust(s) >= 2
  {
    BoundaryIndex(y, s);
    if HasNext(s) && s.st.fptr > 0 {
      assert s.f[s.ch[s.st.ci]] == s.ch[s.st.ci + 1];
    }
  }

  /** The disk is full, and the pointer stands behind the last cluster of the file. */
  ghost predicate Exhausted(y: Layout, t: Snap) {
    NoneFree(t.f) && t.st.fptr == |t.ch| * Bcs(y)
  }

  lemma PlacedAfter(y: Layout, s: Snap, d: Disk, g: Fat, r: nat, eoc: nat)
    requires Ok(y, s) && s.st.fptr % SS == 0 && s.st.fptr / SS % y.csize == 0
    requires Sectored(d) && SameButFat(s.d, d, y) && eoc >= |s.f|
    requires HasNext(s) ==> s.st.fptr > 0
    requires Stretch(s.f, s.ch, g, Behind(s), r, HasNext(s), eoc)
    ensures r == 0 ==> Exhausted(y, Snap(d, g, s.ch, s.st)) && g == s.f && GrownBy(s.ch, r, HasNext(s)) == s.ch
    ensures r != 0 ==> r > 1 && Placed(y, s, AtNext(s, d, g, r), 0)
    ensures r != 0 ==> AtNext(s, d, g, r).ch == GrownBy(s.ch, r, HasNext(s))
  {
    BoundaryIndex(y, s);
    BcsIndex(y, NextIndex(s));
    AskFacts(y, s);
    if HasNext(s) {
      PlacedExisting(y, s, d);
    } else if r != 0 {
      PlacedFresh(y, s, d, g, r, eoc);
    }
  }

  lemma PlacedThenWrite(y: Layout, s: Snap, t: Snap, u: Snap, csect: nat, w: Bytes)
    requires Core(y, s) && Placed(y, s, t, csect) && WriteDone(y, t, u, w)
    ensures WriteDone(y, s, u, w)
  {
    hide Core, AtCluster, AtSector, BytesOf, Standing, Ok;
    OnlyGrows(s.d, t.d, y, t.ch, u.ch);
    OnlyTwice(s.d, t.d, u.d, y, u.ch);
  }

  lemma PlacedFacts(y: Layout, s: Snap, t: Snap, csect: nat)
    requires Placed(y, s, t, csect)
    ensures Core(y, t) && Standing(y, t.ch, t.st, csect) && csect < y.csize
    ensures t.st.fptr == s.st.fptr && t.st.objsize == s.st.objsize && 2 <= t.st.clust
  {
  }

  lemma StaysStanding(y: Layout, s: Snap, csect: nat)
    requires Core(y, s) && Standing(y, s.ch, s.st, csect)
    ensures SameFile(y, s, Flushed(s)) && Standing(y, s.ch, Flushed(s).st, csect) && !Flushed(s).st.cache.dirty
    ensures Flushed(s).ch == s.ch && Flushed(s).st.clust == s.st.clust && Flushed(s).st.fptr == s.st.fptr
    ensures Flushed(s).st.objsize == s.st.objsize && |Flushed(s).d| == |s.d| && csect < y.csize
  {
    FlushedSame(y, s);
  }

  /** Finding the disk full leaves the file as it was. */
  lemma FullSame(y: Layout, s: Snap, d: Disk)
    requires Ok(y, s) && Sectored(d) && SameButFat(s.d, d, y)
    ensures WriteDone(y, s, s.(d := d), [])
  {
    OffFatSame(y, s, d);
  }
}
