/** The state of an open file on a volume, and what each step of reading, writing and seeking
    does to the bytes it stands for. */
module FatFileState {
  import opened Words
  import opened FatEntry
  import opened FatVolume
  import opened FatTable
  import opened FatSectors
  import opened FatContent

  /** The fields of an open file; `ci` says which cluster of the chain `clust` is. */
  datatype FilSt = FilSt(fptr: nat, objsize: nat, sclust: nat, clust: nat, ci: nat, cache: Cache)

  /** Cluster size in bytes. */
  function Bcs(y: Layout): nat {
    y.csize * SS
  }

  ghost predicate NotDirs(ch: seq<nat>, dirs: set<nat>) {
    forall i :: 0 <= i < |ch| ==> ch[i] !in dirs
  }

  /** `clust` is the cluster that holds the byte in front of the file pointer. */
  ghost predicate AtCluster(y: Layout, ch: seq<nat>, st: FilSt) {
    st.fptr > 0 ==>
      st.ci < |ch| && st.clust == ch[st.ci] && st.ci * Bcs(y) < st.fptr <= st.ci * Bcs(y) + Bcs(y)
  }

  /** In the middle of a sector the buffer shows that sector. */
  ghost predicate AtSector(s: seq<nat>, st: FilSt) {
    st.fptr % SS != 0 ==> st.fptr / SS < |s| && s[st.fptr / SS] == st.cache.sect
  }

  /** The chain `ch` of table `f` holds the bytes of the open file `st`, wherever it stands. */
  ghost predicate FilCore(d: Disk, y: Layout, f: Fat, ch: seq<nat>, st: FilSt) {
    && IsFile(f, ch) && |f| == y.nFatent && y.Sound(|d|) && y.DataFits(|d|)
    && st.sclust == (if ch == [] then 0 else ch[0])
    && st.fptr <= st.objsize <= |Sects(y, ch)| * SS
    && CacheOk(d, Sects(y, ch), st.cache, st.objsize)
  }

  ghost function FilBytes(d: Disk, y: Layout, f: Fat, ch: seq<nat>, st: FilSt): (b: Bytes)
    ensures FilCore(d, y, f, ch, st) ==> |b| == st.objsize
  {
    if FilCore(d, y, f, ch, st) then Content(d, Sects(y, ch), st.cache, st.objsize) else []
  }

  lemma DistinctSects(y: Layout, f: Fat, ch: seq<nat>)
    requires IsFile(f, ch)
    ensures Distinct(Sects(y, ch))
  {
    forall k, l | 0 <= k < |Sects(y, ch)| && 0 <= l < |Sects(y, ch)| && k != l
      ensures Sects(y, ch)[k] != Sects(y, ch)[l]
    {
      SectsDistinct(y, f, ch, k, l);
    }
  }

  /** All sectors of a file lie in the data area, outside the window. */
  lemma SectInData(y: Layout, sectors: nat, f: Fat, ch: seq<nat>, k: nat)
    requires IsFile(f, ch) && |f| == y.nFatent && y.Sound(sectors) && y.DataFits(sectors) && k < |Sects(y, ch)|
    ensures y.database <= Sects(y, ch)[k] < sectors
  {
    var i, o := SectsOwner(y, ch, k);
    ClusterInData(y, sectors, ch[i], o);
  }

  // ---------- the buffer ----------

  lemma FlushFil(d: Disk, y: Layout, f: Fat, ch: seq<nat>, st: FilSt)
    requires FilCore(d, y, f, ch, st) && st.cache.dirty
    ensures st.cache.sect in Sects(y, ch) && st.cache.sect < |d|
    ensures var e, t := d[st.cache.sect := st.cache.buf], st.(cache := st.cache.(dirty := false));
            FilCore(e, y, f, ch, t) && FilBytes(e, y, f, ch, t) == FilBytes(d, y, f, ch, st)
  {
    DistinctSects(y, f, ch);
    FlushKeeps(d, Sects(y, ch), st.cache, st.objsize);
  }

  lemma LoadFil(d: Disk, y: Layout, f: Fat, ch: seq<nat>, st: FilSt, sect: nat)
    requires FilCore(d, y, f, ch, st) && !st.cache.dirty && sect < |d|
    ensures var t := st.(cache := Cache(false, sect, d[sect]));
            FilCore(d, y, f, ch, t) && FilBytes(d, y, f, ch, t) == FilBytes(d, y, f, ch, st)
  {
    LoadKeeps(d, Sects(y, ch), st.cache, st.objsize, sect);
  }

  /** Disks that agree on the file's sectors hold the same file. */
  lemma FilFrame(d: Disk, e: Disk, y: Layout, f: Fat, ch: seq<nat>, st: FilSt)
    requires FilCore(d, y, f, ch, st) && Sectored(e) && |e| == |d|
    requires forall k :: 0 <= k < |Sects(y, ch)| ==> e[Sects(y, ch)[k]] == d[Sects(y, ch)[k]]
    ensures FilCore(e, y, f, ch, st) && FilBytes(e, y, f, ch, st) == FilBytes(d, y, f, ch, st)
  {
    SameData(d, Sects(y, ch), st.cache, e, Sects(y, ch), st.cache, st.objsize);
  }

  /** Disks that differ only in the tables hold the same files. */
  lemma FilOffFat(d: Disk, e: Disk, y: Layout, f: Fat, ch: seq<nat>, st: FilSt)
    requires FilCore(d, y, f, ch, st) && Sectored(e) && SameButFat(d, e, y)
    ensures FilCore(e, y, f, ch, st) && FilBytes(e, y, f, ch, st) == FilBytes(d, y, f, ch, st)
  {
    forall k | 0 <= k < |Sects(y, ch)|
      ensures e[Sects(y, ch)[k]] == d[Sects(y, ch)[k]]
    {
      SectInData(y, |d|, f, ch, k);
    }
    FilFrame(d, e, y, f, ch, st);
  }

  // ---------- where the file pointer stands ----------

  /** Offset of sector `k` in its cluster, from the cluster in front of it. */
  lemma SectorInCluster(k: nat, n: nat, ci: nat)
    requires 0 < n && ci * n < k <= ci * n + n
    ensures k % n == if k == ci * n + n then 0 else k - ci * n
  {
    if k == ci * n + n {
      Distribute(ci, n);
      DivModUnique(k, n, ci + 1, 0);
    } else {
      DivModUnique(k, n, ci, k - ci * n);
    }
  }

  lemma BcsIndex(y: Layout, ci: nat)
    ensures ci * Bcs(y) == (ci * y.csize) * SS
  {
    assert ci * (y.csize * SS) == (ci * y.csize) * SS;
  }

  /** At a sector boundary inside a cluster, or just in front of the next one. */
  lemma BoundaryOffset(y: Layout, ch: seq<nat>, st: FilSt)
    requires AtCluster(y, ch, st) && 0 < st.fptr && st.fptr % SS == 0 && 0 < y.csize
    ensures var k := st.fptr / SS;
            && st.ci * y.csize < k <= st.ci * y.csize + y.csize
            && k % y.csize == if k == (st.ci + 1) * y.csize then 0 else k - st.ci * y.csize
  {
    BcsIndex(y, st.ci);
    Distribute(st.ci, y.csize);
    SectorInCluster(st.fptr / SS, y.csize, st.ci);
  }

  /** The file pointer is at the start of sector `csect` of the `ci`-th cluster, `clust`. */
  ghost predicate Standing(y: Layout, ch: seq<nat>, st: FilSt, csect: nat) {
    st.ci < |ch| && st.clust == ch[st.ci] && csect < y.csize && st.fptr % SS == 0
    && st.fptr / SS == st.ci * y.csize + csect
  }

  lemma StandingSector(y: Layout, f: Fat, ch: seq<nat>, st: FilSt, csect: nat)
    requires IsFile(f, ch) && Standing(y, ch, st, csect)
    ensures st.fptr / SS < |Sects(y, ch)|
    ensures Sects(y, ch)[st.fptr / SS] == y.ClusterSector(st.clust) + csect
  {
    SectsAt(y, ch, st.ci, csect);
  }

  /** Up to the end of a cluster the sectors of a file lie next to each other. */
  lemma StandingRun(y: Layout, f: Fat, ch: seq<nat>, st: FilSt, csect: nat, cc: nat)
    requires IsFile(f, ch) && Standing(y, ch, st, csect) && 0 < cc && csect + cc <= y.csize
    ensures Adjacent(Sects(y, ch), st.fptr / SS, cc)
  {
    var k := st.fptr / SS;
    SectsAt(y, ch, st.ci, y.csize - 1);
    SectsAt(y, ch, st.ci, csect);
    forall i | k <= i < k + cc
      ensures Sects(y, ch)[i] == Sects(y, ch)[k] + (i - k)
    {
      SectsAt(y, ch, st.ci, i - st.ci * y.csize);
    }
  }

  /** Moving on by `n` bytes inside the cluster keeps the cluster. */
  lemma StepInCluster(y: Layout, ch: seq<nat>, st: FilSt, csect: nat, n: nat)
    requires Standing(y, ch, st, csect) && 0 < n <= (y.csize - csect) * SS
    ensures AtCluster(y, ch, st.(fptr := st.fptr + n))
  {
    BcsIndex(y, st.ci);
  }

  /** Moving on by `n` bytes inside the sector keeps the cluster. */
  lemma StepInSector(y: Layout, ch: seq<nat>, st: FilSt, n: nat)
    requires AtCluster(y, ch, st) && st.fptr % SS != 0 && st.fptr % SS + n <= SS
    ensures AtCluster(y, ch, st.(fptr := st.fptr + n))
  {
    BcsIndex(y, st.ci);
  }

  /** The cluster behind the current one, while there are bytes left to read. */
  lemma NextCluster(y: Layout, f: Fat, ch: seq<nat>, st: FilSt)
    requires IsFile(f, ch) && AtCluster(y, ch, st) && 0 < y.csize
    requires st.fptr % SS == 0 && st.fptr / SS % y.csize == 0 && st.fptr / SS < |Sects(y, ch)|
    ensures 0 < |ch|
    ensures st.fptr > 0 ==> st.ci + 1 < |ch| && f[st.clust] == ch[st.ci + 1]
    ensures var t := if st.fptr == 0 then st.(clust := ch[0], ci := 0) else st.(clust := ch[st.ci + 1], ci := st.ci + 1);
            Standing(y, ch, t, 0)
  {
    SectsLen(y, ch);
    if st.fptr > 0 {
      BoundaryOffset(y, ch, st);
      Monotone(if |ch| <= st.ci + 1 then |ch| else st.ci + 1, st.ci + 1, y.csize);
      assert f[ch[st.ci]] == ch[st.ci + 1];
    }
  }

  /** Inside a cluster nothing needs to be followed. */
  lemma SameCluster(y: Layout, ch: seq<nat>, st: FilSt)
    requires AtCluster(y, ch, st) && 0 < y.csize
    requires st.fptr % SS == 0 && st.fptr / SS % y.csize != 0
    ensures Standing(y, ch, st, st.fptr / SS % y.csize)
  {
    DivModUnique(0, y.csize, 0, 0);
    BoundaryOffset(y, ch, st);
  }

  lemma StaysInSector(p: nat, n: nat)
    requires p % SS + n <= SS
    ensures (p + n) % SS != 0 ==> (p + n) / SS == p / SS
  {
    if p % SS + n < SS {
      DivModUnique(p + n, SS, p / SS, p % SS + n);
    } else {
      DivModUnique(p + n, SS, p / SS + 1, 0);
    }
  }

  /** The buffer shows sector `csect` of the current cluster, where the file pointer stands. */
  lemma StandingInBuffer(y: Layout, f: Fat, ch: seq<nat>, st: FilSt, csect: nat, n: nat)
    requires IsFile(f, ch) && Standing(y, ch, st, csect) && st.cache.sect == y.ClusterSector(st.clust) + csect
    requires 0 < n <= SS
    ensures st.fptr / SS < |Sects(y, ch)| && Sects(y, ch)[st.fptr / SS] == st.cache.sect
    ensures AtCluster(y, ch, st.(fptr := st.fptr + n)) && AtSector(Sects(y, ch), st.(fptr := st.fptr + n))
  {
    StandingSector(y, f, ch, st, csect);
    StepInCluster(y, ch, st, csect, n);
    StaysInSector(st.fptr, n);
  }

  /** In the middle of a sector the buffer shows it, and stays so up to the sector's end. */
  lemma MidSector(y: Layout, ch: seq<nat>, st: FilSt, n: nat)
    requires AtCluster(y, ch, st) && AtSector(Sects(y, ch), st) && st.fptr % SS != 0
    requires 0 < n && st.fptr % SS + n <= SS
    ensures st.fptr / SS < |Sects(y, ch)| && Sects(y, ch)[st.fptr / SS] == st.cache.sect
    ensures AtCluster(y, ch, st.(fptr := st.fptr + n)) && AtSector(Sects(y, ch), st.(fptr := st.fptr + n))
  {
    StepInSector(y, ch, st, n);
    StaysInSector(st.fptr, n);
  }

  /** Whole sectors further the file pointer is at a sector boundary again. */
  lemma StepSectors(y: Layout, ch: seq<nat>, st: FilSt, csect: nat, cc: nat)
    requires Standing(y, ch, st, csect) && 0 < cc && csect + cc <= y.csize
    ensures AtCluster(y, ch, st.(fptr := st.fptr + cc * SS))
    ensures AtSector(Sects(y, ch), st.(fptr := st.fptr + cc * SS))
  {
    StepInCluster(y, ch, st, csect, cc * SS);
    DivModUnique(st.fptr + cc * SS, SS, st.fptr / SS + cc, 0);
  }

  /** Bytes of the sector in the buffer are bytes of the file. */
  lemma BufferSlice(d: Disk, y: Layout, f: Fat, ch: seq<nat>, st: FilSt, n: nat)
    requires FilCore(d, y, f, ch, st) && 0 < n && st.fptr % SS + n <= SS && st.fptr + n <= st.objsize
    requires st.fptr / SS < |Sects(y, ch)| && Sects(y, ch)[st.fptr / SS] == st.cache.sect
    ensures st.cache.buf[st.fptr % SS..st.fptr % SS + n] == FilBytes(d, y, f, ch, st)[st.fptr..st.fptr + n]
  {
    BufferShows(d, Sects(y, ch), st.cache, st.objsize, st.fptr, n);
  }

  // ---------- the file and its volume together ----------

  /** All that a file operation sees: the disk, the table, the file's chain and its fields. */
  datatype Snap = Snap(d: Disk, f: Fat, ch: seq<nat>, st: FilSt)

  ghost predicate Core(y: Layout, s: Snap) {
    FilCore(s.d, y, s.f, s.ch, s.st)
  }

  /** Between two operations. */
  ghost predicate Ok(y: Layout, s: Snap) {
    Core(y, s) && AtCluster(y, s.ch, s.st) && AtSector(Sects(y, s.ch), s.st)
  }

  /** The bytes of the file. */
  ghost function BytesOf(y: Layout, s: Snap): (b: Bytes)
    ensures Core(y, s) ==> |b| == s.st.objsize
  {
    FilBytes(s.d, y, s.f, s.ch, s.st)
  }

  /** Same file, same bytes, same size; only sectors of the file may have been written. */
  ghost predicate SameFile(y: Layout, s: Snap, t: Snap) {
    && Core(y, t) && BytesOf(y, t) == BytesOf(y, s)
    && t.f == s.f && t.ch == s.ch && t.st.objsize == s.st.objsize && t.st.sclust == s.st.sclust
    && OnlyChain(s.d, t.d, y, s.ch)
  }

  lemma SameTable(y: Layout, s: Snap, t: Snap)
    requires SameFile(y, s, t)
    ensures Core(y, t) && t.f == s.f && t.ch == s.ch && |t.d| == |s.d|
  {
  }

  /** A read of `data`. */
  ghost predicate ReadDone(y: Layout, s: Snap, t: Snap, data: Bytes) {
    && SameFile(y, s, t) && Ok(y, t)
    && t.st.fptr == s.st.fptr + |data| <= s.st.objsize
    && s.st.fptr + |data| <= |BytesOf(y, s)| && data == BytesOf(y, s)[s.st.fptr..s.st.fptr + |data|]
  }

  lemma NothingRead(y: Layout, s: Snap)
    requires Ok(y, s)
    ensures ReadDone(y, s, s, [])
  {
  }

  lemma AfterRead(y: Layout, s: Snap, t: Snap, data: Bytes)
    requires ReadDone(y, s, t, data)
    ensures Ok(y, t) && t.st.fptr == s.st.fptr + |data| <= t.st.objsize == s.st.objsize
  {
  }

  lemma OnlyTwice(d: Disk, e: Disk, g: Disk, y: Layout, ch: seq<nat>)
    requires OnlyChain(d, e, y, ch) && OnlyChain(e, g, y, ch)
    ensures OnlyChain(d, g, y, ch)
  {
  }

  /** Two reads in a row. */
  lemma ReadTwice(y: Layout, s: Snap, t: Snap, u: Snap, a: Bytes, b: Bytes)
    requires ReadDone(y, s, t, a) && ReadDone(y, t, u, b)
    ensures ReadDone(y, s, u, a + b)
  {
    hide Core, OnlyChain, BytesOf, AtCluster, AtSector;
    var p, w := s.st.fptr, BytesOf(y, s);
    assert w[p..p + |a| + |b|] == w[p..p + |a|] + w[p + |a|..p + |a| + |b|];
    OnlyTwice(s.d, t.d, u.d, y, s.ch);
  }

  lemma SameThenRead(y: Layout, s: Snap, t: Snap, u: Snap, data: Bytes)
    requires SameFile(y, s, t) && t.st.fptr == s.st.fptr && ReadDone(y, t, u, data)
    ensures ReadDone(y, s, u, data)
  {
  }

  ghost function Flushed(s: Snap): Snap {
    var c := s.st.cache;
    if c.dirty && c.sect < |s.d| then s.(d := s.d[c.sect := c.buf], st := s.st.(cache := c.(dirty := false))) else s
  }

  lemma FlushedSame(y: Layout, s: Snap)
    requires Core(y, s)
    ensures s.st.cache.dirty ==> s.st.cache.sect in Sects(y, s.ch) && y.database <= s.st.cache.sect < |s.d|
    ensures SameFile(y, s, Flushed(s)) && !Flushed(s).st.cache.dirty
  {
    if s.st.cache.dirty {
      FlushFil(s.d, y, s.f, s.ch, s.st);
      var k :| 0 <= k < |Sects(y, s.ch)| && Sects(y, s.ch)[k] == s.st.cache.sect;
      SectInData(y, |s.d|, s.f, s.ch, k);
    }
  }

  ghost function Loaded(s: Snap, sect: nat): Snap {
    if sect < |s.d| then s.(st := s.st.(cache := Cache(false, sect, s.d[sect]))) else s
  }

  lemma LoadedSame(y: Layout, s: Snap, sect: nat)
    requires Core(y, s) && !s.st.cache.dirty && sect < |s.d|
    ensures SameFile(y, s, Loaded(s, sect))
  {
    LoadFil(s.d, y, s.f, s.ch, s.st, sect);
  }

  lemma SameTwice(y: Layout, s: Snap, t: Snap, u: Snap)
    requires SameFile(y, s, t) && SameFile(y, t, u)
    ensures SameFile(y, s, u)
  {
  }

  /** Moving the window, or changing tables elsewhere, changes no file. */
  lemma OffFatSame(y: Layout, s: Snap, e: Disk)
    requires Core(y, s) && Sectored(e) && SameButFat(s.d, e, y)
    ensures SameFile(y, s, s.(d := e))
  {
    FilOffFat(s.d, e, y, s.f, s.ch, s.st);
  }

  ghost function Entered(s: Snap, clst: nat, ci: nat): Snap {
    s.(st := s.st.(clust := clst, ci := ci))
  }

  lemma EnteredSame(y: Layout, s: Snap, clst: nat, ci: nat)
    requires Core(y, s)
    ensures SameFile(y, s, Entered(s, clst, ci))
  {
  }

  ghost function Moved(s: Snap, n: nat): Snap {
    s.(st := s.st.(fptr := s.st.fptr + n))
  }

  lemma MovedSame(y: Layout, s: Snap, n: nat)
    requires Core(y, s) && s.st.fptr + n <= s.st.objsize
    ensures SameFile(y, s, Moved(s, n))
  {
  }

  /** Where the next sector to read lies. */
  lemma NextRead(y: Layout, s: Snap)
    requires Ok(y, s) && s.st.fptr % SS == 0 && s.st.fptr < s.st.objsize && s.st.fptr / SS % y.csize == 0
    ensures 0 < |s.ch| && s.st.sclust == s.ch[0]
    ensures s.st.fptr > 0 ==> s.st.ci + 1 < |s.ch| && 2 <= s.st.clust < |s.f| && s.f[s.st.clust] == s.ch[s.st.ci + 1]
    ensures Standing(y, s.ch, Entered(s, NextClust(s), NextIndex(s)).st, 0) && 2 <= NextClust(s) < |s.f|
  {
    NextCluster(y, s.f, s.ch, s.st);
  }

  ghost function NextIndex(s: Snap): nat {
    if s.st.fptr == 0 then 0 else s.st.ci + 1
  }

  ghost function NextClust(s: Snap): nat {
    if NextIndex(s) < |s.ch| then s.ch[NextIndex(s)] else 0
  }

  /** Reading whole sectors past the buffer. */
  lemma DirectRead(y: Layout, s: Snap, e: Disk, csect: nat, sect: nat, cc: nat)
    requires Core(y, s) && Standing(y, s.ch, s.st, csect) && Sectored(e) && |e| == |s.d|
    requires 0 < cc && csect + cc <= y.csize && s.st.fptr + cc * SS <= s.st.objsize
    requires sect == y.ClusterSector(s.st.clust) + csect && sect + cc <= |s.d|
    requires forall i :: sect <= i < sect + cc ==> e[i] == s.d[i]
    ensures ReadDone(y, s, Moved(s, cc * SS), Patched(ReadRun(e, sect, cc), sect, cc, s.st.cache))
  {
    var k := s.st.fptr / SS;
    var q := Sects(y, s.ch);
    DistinctSects(y, s.f, s.ch);
    StandingSector(y, s.f, s.ch, s.st, csect);
    StandingRun(y, s.f, s.ch, s.st, csect, cc);
    ReadRunLocal(s.d, e, sect, cc);
    assert q[k] == sect && k * SS == s.st.fptr;
    DirectReads(s.d, q, s.st.cache, s.st.objsize, k, cc);
    StepSectors(y, s.ch, s.st, csect, cc);
    MovedSame(y, s, cc * SS);
  }

  /** Reading from the sector in the buffer. */
  lemma BufferedRead(y: Layout, s: Snap, n: nat)
    requires Core(y, s) && 0 < n && s.st.fptr % SS + n <= SS && s.st.fptr + n <= s.st.objsize
    requires s.st.fptr / SS < |Sects(y, s.ch)| && Sects(y, s.ch)[s.st.fptr / SS] == s.st.cache.sect
    requires Ok(y, Moved(s, n)) || (AtCluster(y, s.ch, Moved(s, n).st) && AtSector(Sects(y, s.ch), Moved(s, n).st))
    ensures |s.st.cache.buf| == SS
    ensures ReadDone(y, s, Moved(s, n), s.st.cache.buf[s.st.fptr % SS..s.st.fptr % SS + n])
  {
    hide CacheOk, Content, IsFile, Layout.Sound, OnlyChain, AtCluster, AtSector;
    BufferSize(y, s);
    BufferSlice(s.d, y, s.f, s.ch, s.st, n);
    MovedSame(y, s, n);
  }

  lemma BufferSize(y: Layout, s: Snap)
    requires Core(y, s)
    ensures |s.st.cache.buf| == SS
  {
  }

  /** Reading from the start of the sector just loaded. */
  lemma LoadedRead(y: Layout, s: Snap, csect: nat, n: nat)
    requires Core(y, s) && Standing(y, s.ch, s.st, csect) && 0 < n <= SS && s.st.fptr + n <= s.st.objsize
    requires s.st.cache.sect == y.ClusterSector(s.st.clust) + csect
    ensures |s.st.cache.buf| == SS
    ensures ReadDone(y, s, Moved(s, n), s.st.cache.buf[..n])
  {
    StandingInBuffer(y, s.f, s.ch, s.st, csect, n);
    BufferedRead(y, s, n);
  }

  /** Reading on in the middle of a sector. */
  lemma MidRead(y: Layout, s: Snap, n: nat)
    requires Ok(y, s) && s.st.fptr % SS != 0 && 0 < n && s.st.fptr % SS + n <= SS && s.st.fptr + n <= s.st.objsize
    ensures |s.st.cache.buf| == SS
    ensures ReadDone(y, s, Moved(s, n), s.st.cache.buf[s.st.fptr % SS..s.st.fptr % SS + n])
  {
    MidSector(y, s.ch, s.st, n);
    BufferedRead(y, s, n);
  }
}
