/** Reading, writing, seeking and truncating an open file. */
module FatFile {
  import opened Words
  import opened FatEntry
  import opened FatVolume
  import opened FatTable
  import opened FatChain
  import opened FatSectors
  import opened FatContent
  import opened FatFileState
  import opened FatWriteState

  /** An open file.  `me` is its place among the volume's chains. */
  class Fil {
    const canRead: bool
    const canWrite: bool
    const buf: array<Byte>
    ghost const me: nat
    var dirty: bool
    var modified: bool
    var fptr: nat
    var objsize: nat
    var sclust: nat
    var clust: nat
    var sect: nat
    ghost var ci: nat

    constructor (fs: FatFs, start: nat, size: nat, canRead: bool, canWrite: bool, ghost me: nat)
      requires fs.Valid() && me < |fs.chains| && NotDirs(fs.chains[me], fs.dirs) && IsFile(fs.Fat(), fs.chains[me])
      requires start == if fs.chains[me] == [] then 0 else fs.chains[me][0]
      requires size <= |Sects(fs.y, fs.chains[me])| * SS && size <= 0xFFFF_FFFF
      ensures Live(fs, this) && Ok(fs.y, Now(fs, this)) && fptr == 0 && objsize == size && this.me == me
      ensures this.canRead == canRead && this.canWrite == canWrite && fresh(buf)
    {
      this.canRead, this.canWrite, this.me := canRead, canWrite, me;
      buf := new Byte[SS](_ => 0);
      dirty, modified := false, false;
      fptr, objsize, sclust, clust, sect := 0, size, start, 0, 0;
      ci := 0;
      new;
      var ch := fs.chains[me];
      forall k | 0 <= k < |Sects(fs.y, ch)|
        ensures fs.y.database <= Sects(fs.y, ch)[k] < |fs.disk|
      {
        SectInData(fs.y, |fs.disk|, fs.Fat(), ch, k);
      }
    }

    ghost function St(): FilSt
      reads this, buf
    {
      FilSt(fptr, objsize, sclust, clust, ci, Cache(dirty, sect, buf[..]))
    }
  }

  /** The volume and the file that is open on it, as one value. */
  ghost function Now(fs: FatFs, fp: Fil): Snap
    reads fs, fs.win, fp, fp.buf
  {
    Snap(if fs.Shape() then fs.View() else [],
         if fs.Shape() then fs.Fat() else [],
         if fp.me < |fs.chains| then fs.chains[fp.me] else [],
         fp.St())
  }

  /** The objects are in order and the file holds no directory cluster. */
  ghost predicate Live(fs: FatFs, fp: Fil)
    reads fs, fs.win, fp, fp.buf
  {
    && fs.Valid()
    && fp.buf.Length == SS && fp.buf != fs.win
    && fp.me < |fs.chains| && NotDirs(fs.chains[fp.me], fs.dirs)
    && fp.objsize <= 0xFFFF_FFFF
  }

  // ---------- sectors of the data area ----------

  /** The window never shows a data sector of a file. */
  lemma WindowElsewhere(fs: FatFs, ch: seq<nat>, k: nat)
    requires fs.Shape() && AllClusters(ch) && NotDirs(ch, fs.dirs) && k < |Sects(fs.y, ch)|
    ensures Sects(fs.y, ch)[k] != fs.winsect || fs.winsect < fs.y.database
  {
    var i, o := SectsOwner(fs.y, ch, k);
    ClusterNotInWindow(fs.y, fs.winsect, fs.winClust, fs.dirs, ch[i], o);
  }

  lemma DataWriteSafe(fs: FatFs, e: Disk, lo: nat, hi: nat)
    requires fs.Valid() && fs.y.database <= lo && hi <= |fs.disk| && !(lo <= fs.winsect < hi)
    requires |e| == |fs.disk| && Sectored(e) && forall s :: 0 <= s < |e| && !(lo <= s < hi) ==> e[s] == fs.disk[s]
    ensures TableBytes(e[fs.winsect := fs.win[..]], fs.y) == fs.Bytes()
  {
    TableLocal(fs.View(), e[fs.winsect := fs.win[..]], fs.y);
  }

  /** Write one data sector straight to the disk. */
  method WriteSector(fs: FatFs, sect: nat, b: Bytes)
    requires fs.Valid() && |b| == SS && fs.y.database <= sect < |fs.disk| && sect != fs.winsect
    modifies fs`disk
    ensures fs.Valid() && fs.View() == old(fs.View())[sect := b] && fs.Fat() == old(fs.Fat())
  {
    DataWriteSafe(fs, fs.disk[sect := b], sect, sect + 1);
    fs.disk := fs.disk[sect := b];
    assert fs.View() == old(fs.View())[sect := b];
  }

  /** Write `cc` data sectors straight to the disk. */
  method WriteData(fs: FatFs, sect: nat, cc: nat, b: Bytes)
    requires fs.Valid() && |b| == cc * SS && fs.y.database <= sect && sect + cc <= |fs.disk|
    requires !(sect <= fs.winsect < sect + cc)
    modifies fs`disk
    ensures fs.Valid() && fs.View() == WriteRun(old(fs.View()), sect, cc, b) && fs.Fat() == old(fs.Fat())
  {
    var e := WriteRun(fs.disk, sect, cc, b);
    DataWriteSafe(fs, e, sect, sect + cc);
    fs.disk := e;
    assert fs.View() == WriteRun(old(fs.View()), sect, cc, b);
  }

  // ---------- single steps ----------

  lemma DirtyElsewhere(fs: FatFs, fp: Fil)
    requires Live(fs, fp) && Core(fs.y, Now(fs, fp)) && fp.dirty
    ensures fs.y.database <= fp.sect < |fs.disk| && fp.sect != fs.winsect
  {
    var s := Now(fs, fp);
    FlushedSame(fs.y, s);
    var k :| 0 <= k < |Sects(fs.y, s.ch)| && Sects(fs.y, s.ch)[k] == fp.sect;
    WindowElsewhere(fs, s.ch, k);
  }

  /** Write a dirty buffer back. */
  method FlushBuf(fs: FatFs, fp: Fil)
    requires Live(fs, fp) && Core(fs.y, Now(fs, fp))
    modifies fs`disk, fp`dirty
    ensures Live(fs, fp) && Now(fs, fp) == Flushed(old(Now(fs, fp))) && !fp.dirty
  {
    hide Core, FatFs.Mirrored;
    if fp.dirty {
      DirtyElsewhere(fs, fp);
      WriteSector(fs, fp.sect, fp.buf[..]);
      fp.dirty := false;
    }
  }

  /** Show data sector `sect` in the buffer. */
  method FillBuf(fs: FatFs, fp: Fil, sect: nat)
    requires Live(fs, fp) && !fp.dirty && sect < |fs.disk| && sect != fs.winsect
    modifies fp`sect, fp.buf
    ensures Live(fs, fp) && Now(fs, fp) == Loaded(old(Now(fs, fp)), sect)
  {
    forall i | 0 <= i < SS {
      fp.buf[i] := fs.disk[sect][i];
    }
    assert fp.buf[..] == fs.View()[sect];
    fp.sect := sect;
  }

  /** Read a table entry while file `fp` is open. */
  method GetFatFor(fs: FatFs, fp: Fil, clst: nat) returns (val: nat)
    requires Live(fs, fp)
    modifies fs`wflag, fs`disk, fs`winsect, fs`winClust, fs.win
    ensures Live(fs, fp) && Now(fs, fp) == old(Now(fs, fp)).(d := Now(fs, fp).d)
    ensures Sectored(Now(fs, fp).d) && SameButFat(old(Now(fs, fp)).d, Now(fs, fp).d, fs.y)
    ensures val == if 2 <= clst < |Now(fs, fp).f| then Now(fs, fp).f[clst] else 1
  {
    val := fs.GetFat(clst);
  }

  /** Make cluster `clst`, the `i`-th of the chain, the current one. */
  method EnterCluster(fs: FatFs, fp: Fil, clst: nat, ghost i: nat)
    requires Live(fs, fp)
    modifies fp`clust, fp`ci
    ensures Live(fs, fp) && Now(fs, fp) == Entered(old(Now(fs, fp)), clst, i)
  {
    fp.clust := clst;
    fp.ci := i;
  }

  /** Move the file pointer on by `n` bytes. */
  method Advance(fs: FatFs, fp: Fil, n: nat)
    requires Live(fs, fp)
    modifies fp`fptr
    ensures Live(fs, fp) && Now(fs, fp) == Moved(old(Now(fs, fp)), n)
  {
    fp.fptr := fp.fptr + n;
  }

  /** First sector of a cluster, or 0 when there is no such cluster. */
  function Clst2Sect(y: Layout, clst: nat): (s: nat)
    ensures 2 <= clst < y.nFatent ==> s == y.ClusterSector(clst) >= y.database
    ensures !(2 <= clst < y.nFatent) ==> s == 0
  {
    if clst < 2 || clst >= y.nFatent then 0 else y.ClusterSector(clst)
  }

  /** So 0 stands for no cluster only, a cluster lies in the data area, and two clusters do not overlap. */
  lemma ClustersInPlace(y: Layout, sectors: nat, c: nat, d: nat)
    requires y.Sound(sectors) && y.DataFits(sectors)
    ensures Clst2Sect(y, c) == 0 <==> c < 2 || c >= y.nFatent
    ensures 2 <= c < y.nFatent ==> y.database <= Clst2Sect(y, c) && Clst2Sect(y, c) + y.csize <= sectors
    ensures 2 <= c < y.nFatent && 2 <= d < y.nFatent && c != d ==>
              Clst2Sect(y, c) + y.csize <= Clst2Sect(y, d) || Clst2Sect(y, d) + y.csize <= Clst2Sect(y, c)
    ensures y.nFatent > 2 ==> Clst2Sect(y, 2) == y.database
    ensures 2 <= c && c + 1 < y.nFatent ==> Clst2Sect(y, c + 1) == Clst2Sect(y, c) + y.csize
  {
    hide *;
    BaseAndSize(y, sectors);
    ClusterInside(y, sectors, c);
    if 2 <= c < y.nFatent && 2 <= d < y.nFatent {
      if c < d {
        ClustersApart(y, c, d);
      } else if d < c {
        ClustersApart(y, d, c);
      }
    }
    ClusterNext(y, c);
  }

  lemma ClusterInside(y: Layout, sectors: nat, c: nat)
    requires y.database > 0 && y.DataFits(sectors)
    ensures Clst2Sect(y, c) == 0 <==> c < 2 || c >= y.nFatent
    ensures 2 <= c < y.nFatent ==> y.database <= Clst2Sect(y, c) && Clst2Sect(y, c) + y.csize <= sectors
  {
    if 2 <= c < y.nFatent {
      Gap(y.csize, c - 2, y.nFatent - 2);
    }
  }

  lemma ClustersApart(y: Layout, c: nat, d: nat)
    requires 2 <= c < d < y.nFatent
    ensures Clst2Sect(y, c) + y.csize <= Clst2Sect(y, d)
  {
    Gap(y.csize, c - 2, d - 2);
  }

  lemma ClusterNext(y: Layout, c: nat)
    ensures y.nFatent > 2 ==> Clst2Sect(y, 2) == y.database
    ensures 2 <= c && c + 1 < y.nFatent ==> Clst2Sect(y, c + 1) == Clst2Sect(y, c) + y.csize
  {
    if 2 <= c && c + 1 < y.nFatent {
      Distribute(c - 2, y.csize);
    }
  }

  lemma BaseAndSize(y: Layout, sectors: nat)
    requires y.Sound(sectors)
    ensures y.database > 0 && y.csize > 0
  {
    hide Pow2, MaxClusters, EntryAt, EntryLen;
  }

  lemma Gap(n: nat, a: nat, b: nat)
    requires a < b
    ensures n * a + n <= n * b
  {
    Monotone(a + 1, b, n);
    Distribute(a, n);
  }

  /** How many whole sectors to move at once: not beyond the cluster. */
  function Clip(csize: nat, csect: nat, n: nat): (cc: nat)
    requires SS <= n && csect < csize
    ensures 0 < cc && csect + cc <= csize && cc * SS <= n
  {
    if csect + n / SS > csize then csize - csect else n / SS
  }

  /** What standing at a sector means for the disk: the sectors are there and not in the window. */
  lemma StandingOnDisk(fs: FatFs, fp: Fil, csect: nat, sect: nat, cc: nat)
    requires Live(fs, fp) && Core(fs.y, Now(fs, fp)) && Standing(fs.y, Now(fs, fp).ch, Now(fs, fp).st, csect)
    requires 0 < cc && csect + cc <= fs.y.csize && sect == fs.y.ClusterSector(fp.clust) + csect
    ensures 2 <= fp.clust < fs.y.nFatent
    ensures fs.y.database <= sect && sect + cc <= |fs.disk| && !(sect <= fs.winsect < sect + cc)
  {
    ghost var s := Now(fs, fp);
    assert fp.clust == s.ch[s.st.ci];
    RunOnDisk(fs.y, |fs.disk|, fp.clust, fs.y.ClusterSector(fp.clust), csect, sect, cc, fs.winsect, fs.winClust, fs.dirs);
  }

  lemma RunOnDisk(y: Layout, sectors: nat, c: nat, base: nat, csect: nat, sect: nat, cc: nat,
                  win: nat, winClust: nat, dirs: set<nat>)
    requires 2 <= c < y.nFatent && y.DataFits(sectors) && c !in dirs && WindowPlaced(y, win, winClust, dirs)
    requires 0 < cc && csect + cc <= y.csize && base == y.ClusterSector(c) && sect == base + csect
    ensures y.database <= sect && sect + cc <= sectors && !(sect <= win < sect + cc)
  {
    hide Layout.ClusterSector, Layout.DataFits, WindowPlaced;
    ClusterInData(y, sectors, c, csect + cc - 1);
    ClusterInData(y, sectors, c, csect);
    if base <= win < base + y.csize {
      ClusterNotInWindow(y, win, winClust, dirs, c, win - base);
    }
  }

  // ---------- what the objects tell about the snapshot ----------

  lemma Fields(fs: FatFs, fp: Fil)
    requires Live(fs, fp)
    ensures var s := Now(fs, fp);
            && s.st.fptr == fp.fptr && s.st.objsize == fp.objsize <= 0xFFFF_FFFF && s.st.sclust == fp.sclust
            && s.st.clust == fp.clust && s.st.ci == fp.ci
            && s.st.cache.sect == fp.sect && s.st.cache.dirty == fp.dirty && s.st.cache.buf == fp.buf[..]
            && Sectored(s.d) && |s.d| == |fs.disk| && |s.f| == fs.y.nFatent && 0 < fs.y.csize
            && fp.me < |fs.chains| && fs.chains[fp.me] == s.ch
  {
  }

  lemma SectorSize()
    ensures SS == 512
  {
  }

  // ---------- the table in order ----------

  /** The volume's table is in order. */
  ghost predicate Tidy(fs: FatFs)
    reads fs, fs.win
  {
    fs.Shape() && AllocOk(fs.Fat(), fs.chains, fs.freeClst, fs.dirs)
  }

  lemma TidyFacts(fs: FatFs, fp: Fil)
    requires Live(fs, fp) && Tidy(fs)
    ensures var s := Now(fs, fp);
            && s.f == fs.Fat() && s.d == fs.View() && s.ch == fs.chains[fp.me]
            && CountsFree(fs.freeClst, s.f) && AllocOk(s.f, fs.chains, fs.freeClst, fs.dirs) && NotDirs(s.ch, fs.dirs)
            && |s.f| == fs.y.nFatent && |s.f| > 2 && Eoc(fs.y) >= |s.f| && Eoc(fs.y) > 1
  {
    EocEndsChains(fs.y, |fs.disk|);
  }

  lemma TidyAgain(fs: FatFs, fp: Fil, f: Fat)
    requires Live(fs, fp) && Now(fs, fp).f == f && AllocOk(f, fs.chains, fs.freeClst, fs.dirs)
    ensures Tidy(fs)
  {
  }

  lemma SamePlace(c: seq<seq<nat>>, k: nat)
    requires k < |c|
    ensures c[k := c[k]] == c
  {
  }

  // ---------- reading ----------

  /** At a sector boundary with bytes left: make `clust` the cluster of that sector.  An error
      would mean that the chain ends too early; that does not happen. */
  method FollowRead(fs: FatFs, fp: Fil) returns (csect: nat, res: FResult)
    requires Live(fs, fp) && Ok(fs.y, Now(fs, fp)) && fp.fptr % SS == 0 && fp.fptr < fp.objsize
    modifies fs`wflag, fs`disk, fs`winsect, fs`winClust, fs.win, fp`clust, fp`ci
    ensures Live(fs, fp) && SameFile(fs.y, old(Now(fs, fp)), Now(fs, fp)) && fp.fptr == old(fp.fptr)
    ensures res == FrOk && Standing(fs.y, Now(fs, fp).ch, Now(fs, fp).st, csect)
  {
    ghost var s := Now(fs, fp);
    csect := fp.fptr / SS % fs.y.csize;
    res := FrOk;
    if csect == 0 {
      NextRead(fs.y, s);
      var clst := fp.sclust;
      if fp.fptr != 0 {
        clst := GetFatFor(fs, fp, fp.clust);
      }
      ghost var t := Now(fs, fp);
      OffFatSame(fs.y, s, t.d);
      if clst < 2 {
        res := FrIntErr;
      } else {
        EnteredSame(fs.y, t, clst, NextIndex(s));
        EnterCluster(fs, fp, clst, NextIndex(s));
      }
    } else {
      SameCluster(fs.y, s.ch, s.st);
    }
  }

  /** Show the sector at the file pointer in the buffer. */
  method LoadForRead(fs: FatFs, fp: Fil, csect: nat, sect: nat)
    requires Live(fs, fp) && Core(fs.y, Now(fs, fp)) && Standing(fs.y, Now(fs, fp).ch, Now(fs, fp).st, csect)
    requires sect == fs.y.ClusterSector(fp.clust) + csect
    modifies fs`disk, fp`dirty, fp`sect, fp.buf
    ensures Live(fs, fp) && SameFile(fs.y, old(Now(fs, fp)), Now(fs, fp)) && fp.sect == sect
  {
    StandingOnDisk(fs, fp, csect, sect, 1);
    if fp.sect != sect {
      ghost var s := Now(fs, fp);
      FlushedSame(fs.y, s);
      FlushBuf(fs, fp);
      LoadedSame(fs.y, Flushed(s), sect);
      FillBuf(fs, fp, sect);
    }
  }

  /** Whole sectors past the buffer. */
  method ReadWhole(fs: FatFs, fp: Fil, csect: nat, sect: nat, cc: nat) returns (data: Bytes)
    requires Live(fs, fp) && Core(fs.y, Now(fs, fp)) && Standing(fs.y, Now(fs, fp).ch, Now(fs, fp).st, csect)
    requires sect == fs.y.ClusterSector(fp.clust) + csect
    requires 0 < cc && csect + cc <= fs.y.csize && fp.fptr + cc * SS <= fp.objsize
    modifies fp`fptr
    ensures Live(fs, fp) && ReadDone(fs.y, old(Now(fs, fp)), Now(fs, fp), data) && |data| == cc * SS
  {
    StandingOnDisk(fs, fp, csect, sect, cc);
    ghost var s := Now(fs, fp);
    assert s.st.clust == fp.clust && s.st.cache == Cache(fp.dirty, fp.sect, fp.buf[..]) && s.d == fs.View();
    DirectRead(fs.y, s, fs.disk, csect, sect, cc);
    hide Core, Standing, SameFile, Ok, BytesOf, FatFs.Mirrored;
    data := Patched(ReadRun(fs.disk, sect, cc), sect, cc, Cache(fp.dirty, fp.sect, fp.buf[..]));
    Advance(fs, fp, cc * SS);
  }

  /** Less than a sector, through the buffer. */
  method ReadPart(fs: FatFs, fp: Fil, csect: nat, sect: nat, n: nat) returns (data: Bytes)
    requires Live(fs, fp) && Core(fs.y, Now(fs, fp)) && Standing(fs.y, Now(fs, fp).ch, Now(fs, fp).st, csect)
    requires sect == fs.y.ClusterSector(fp.clust) + csect
    requires 0 < n <= SS && fp.fptr + n <= fp.objsize
    modifies fs`disk, fp`dirty, fp`sect, fp`fptr, fp.buf
    ensures Live(fs, fp) && ReadDone(fs.y, old(Now(fs, fp)), Now(fs, fp), data) && |data| == n
  {
    ghost var s := Now(fs, fp);
    LoadForRead(fs, fp, csect, sect);
    ghost var t := Now(fs, fp);
    assert t.st.clust == fp.clust && t.st.cache == Cache(fp.dirty, fp.sect, fp.buf[..]) && t.st.fptr == fp.fptr;
    LoadedRead(fs.y, t, csect, n);
    data := fp.buf[..n];
    assert data == t.st.cache.buf[..n];
    SameThenRead(fs.y, s, t, Moved(t, n), data);
    hide Core, Standing, SameFile, Ok, BytesOf, FatFs.Mirrored, ReadDone;
    Advance(fs, fp, n);
  }

  /** Whole sectors past the buffer, or the rest through it. */
  method ReadHere(fs: FatFs, fp: Fil, csect: nat, sect: nat, btr: nat) returns (data: Bytes)
    requires Live(fs, fp) && Core(fs.y, Now(fs, fp)) && Standing(fs.y, Now(fs, fp).ch, Now(fs, fp).st, csect)
    requires sect == fs.y.ClusterSector(fp.clust) + csect && 0 < btr && fp.fptr + btr <= fp.objsize
    modifies fs`disk, fp`dirty, fp`sect, fp`fptr, fp.buf
    ensures Live(fs, fp) && ReadDone(fs.y, old(Now(fs, fp)), Now(fs, fp), data) && 0 < |data| <= btr
  {
    assert csect < fs.y.csize;
    hide Core, Standing, ReadDone;
    if SS <= btr {
      data := ReadWhole(fs, fp, csect, sect, Clip(fs.y.csize, csect, btr));
    } else {
      data := ReadPart(fs, fp, csect, sect, btr);
    }
  }

  /** One round of reading that starts at a sector boundary. */
  method ReadAtBoundary(fs: FatFs, fp: Fil, btr: nat) returns (data: Bytes, res: FResult)
    requires Live(fs, fp) && Ok(fs.y, Now(fs, fp)) && 0 < btr && fp.fptr + btr <= fp.objsize && fp.fptr % SS == 0
    modifies fs`wflag, fs`disk, fs`winsect, fs`winClust, fs.win
    modifies fp`clust, fp`ci, fp`dirty, fp`sect, fp`fptr, fp.buf
    ensures Live(fs, fp) && res == FrOk && 0 < |data| <= btr
    ensures ReadDone(fs.y, old(Now(fs, fp)), Now(fs, fp), data)
  {
    data := [];
    var csect;
    ghost var s := Now(fs, fp);
    csect, res := FollowRead(fs, fp);
    ghost var t := Now(fs, fp);
    assert t.st.clust == fp.clust && t.st.fptr == fp.fptr;
    var sect := Clst2Sect(fs.y, fp.clust);
    StandingOnDisk(fs, fp, csect, fs.y.ClusterSector(fp.clust) + csect, 1);
    assert sect != 0 && sect == fs.y.ClusterSector(fp.clust);
    assert SameFile(fs.y, s, t) && t.st.fptr == s.st.fptr;
    hide Core, Standing, FatFs.Mirrored, Ok, Layout.ClusterSector;
    if sect == 0 {
      res := FrIntErr;
    }
    if res == FrOk {
      data := ReadHere(fs, fp, csect, sect + csect, btr);
      SameThenRead(fs.y, s, t, Now(fs, fp), data);
    }
  }

  /** One round of reading in the middle of a sector. */
  method ReadInside(fs: FatFs, fp: Fil, btr: nat) returns (data: Bytes)
    requires Live(fs, fp) && Ok(fs.y, Now(fs, fp)) && 0 < btr && fp.fptr + btr <= fp.objsize && fp.fptr % SS != 0
    modifies fp`fptr
    ensures Live(fs, fp) && 0 < |data| <= btr
    ensures ReadDone(fs.y, old(Now(fs, fp)), Now(fs, fp), data)
  {
    hide *;
    SectorSize();
    Fields(fs, fp);
    ghost var s := Now(fs, fp);
    var rcnt := SS - fp.fptr % SS;
    if rcnt > btr {
      rcnt := btr;
    }
    MidRead(fs.y, s, rcnt);
    data := fp.buf[fp.fptr % SS..fp.fptr % SS + rcnt];
    assert data == s.st.cache.buf[fp.fptr % SS..fp.fptr % SS + rcnt];
    Advance(fs, fp, rcnt);
  }

  /** One round of reading. */
  method ReadRound(fs: FatFs, fp: Fil, btr: nat) returns (data: Bytes, res: FResult)
    requires Live(fs, fp) && Ok(fs.y, Now(fs, fp)) && 0 < btr && fp.fptr + btr <= fp.objsize
    modifies fs`wflag, fs`disk, fs`winsect, fs`winClust, fs.win
    modifies fp`clust, fp`ci, fp`dirty, fp`sect, fp`fptr, fp.buf
    ensures Live(fs, fp) && res == FrOk && 0 < |data| <= btr
    ensures ReadDone(fs.y, old(Now(fs, fp)), Now(fs, fp), data)
  {
    hide Live, Now, Ok, ReadDone;
    if fp.fptr % SS == 0 {
      data, res := ReadAtBoundary(fs, fp, btr);
    } else {
      data := ReadInside(fs, fp, btr);
      res := FrOk;
    }
  }

  lemma ReadSameTable(y: Layout, s: Snap, t: Snap, data: Bytes)
    requires ReadDone(y, s, t, data)
    ensures t.f == s.f && t.ch == s.ch
  {
  }

  /** Read up to `btr` bytes: the slice of the file at the file pointer, cut at its end. */
  method FRead(fs: FatFs, fp: Fil, btr: nat) returns (data: Bytes, res: FResult)
    requires Live(fs, fp) && Tidy(fs) && Ok(fs.y, Now(fs, fp))
    modifies fs`wflag, fs`disk, fs`winsect, fs`winClust, fs.win
    modifies fp`clust, fp`ci, fp`dirty, fp`sect, fp`fptr, fp.buf
    ensures Live(fs, fp) && Tidy(fs) && ReadDone(fs.y, old(Now(fs, fp)), Now(fs, fp), data)
    ensures res == if fp.canRead then FrOk else FrDenied
    ensures |data| == if !fp.canRead then 0
                      else if btr <= old(fp.objsize - fp.fptr) then btr else old(fp.objsize - fp.fptr)
  {
    hide *;
    data, res := [], if fp.canRead then FrOk else FrDenied;
    ghost var s := Now(fs, fp);
    NothingRead(fs.y, s);
    AfterRead(fs.y, s, s, []);
    Fields(fs, fp);
    TidyFacts(fs, fp);
    if fp.canRead {
      var left: nat := if btr <= fp.objsize - fp.fptr then btr else fp.objsize - fp.fptr;
      ghost var n: nat := left;
      while left > 0
        invariant Live(fs, fp) && res == FrOk
        invariant ReadDone(fs.y, s, Now(fs, fp), data) && |data| + left == n && n <= s.st.objsize - s.st.fptr
        decreases left
      {
        ghost var t := Now(fs, fp);
        AfterRead(fs.y, s, t, data);
        Fields(fs, fp);
        var chunk;
        chunk, res := ReadRound(fs, fp, left);
        ReadTwice(fs.y, s, t, Now(fs, fp), data, chunk);
        data := data + chunk;
        left := left - |chunk|;
      }
    }
    ReadSameTable(fs.y, s, Now(fs, fp), data);
    TidyAgain(fs, fp, s.f);
  }

  // ---------- writing ----------

  /** Follow or stretch the chain behind `clst` while file `fp` is open. */
  method Allocate(fs: FatFs, fp: Fil, clst: nat, ghost has: bool) returns (r: nat)
    requires Live(fs, fp) && Tidy(fs)
    requires has ==> 2 <= clst < |Now(fs, fp).f| && 2 <= Now(fs, fp).f[clst] < |Now(fs, fp).f|
    requires !has ==> clst == if Now(fs, fp).ch == [] then 0 else Now(fs, fp).ch[|Now(fs, fp).ch| - 1]
    modifies fs`wflag, fs`disk, fs`winsect, fs`winClust, fs`lastClst, fs`freeClst, fs`fsiDirty, fs`chains, fs.win
    ensures Live(fs, fp) && Tidy(fs)
    ensures Sectored(Now(fs, fp).d) && SameButFat(old(Now(fs, fp)).d, Now(fs, fp).d, fs.y)
    ensures Now(fs, fp).st == old(Now(fs, fp)).st && Now(fs, fp).ch == GrownBy(old(Now(fs, fp)).ch, r, has)
    ensures Stretch(old(Now(fs, fp)).f, old(Now(fs, fp)).ch, Now(fs, fp).f, clst, r, has, Eoc(fs.y))
    ensures fs.chains == old(fs.chains)[fp.me := Now(fs, fp).ch]
    ensures Hands(old(Now(fs, fp)).f, old(fs.lastClst), clst, r, has, fs.lastClst)
  {
    hide *;
    ghost var s := Now(fs, fp);
    ghost var free, chains, dirs, last := fs.freeClst, fs.chains, fs.dirs, fs.lastClst;
    TidyFacts(fs, fp);
    Fields(fs, fp);
    AsksWell(s.f, chains, fp.me, free, dirs, clst, has);
    r := CreateFor(fs, fp, clst);
    ghost var g := Now(fs, fp).f;
    HandsOut(s.f, chains, fp.me, free, dirs, last, clst, r, has, fs.lastClst);
    StretchStep(s.f, g, chains, fp.me, free, fs.freeClst, dirs, clst, r, has, Eoc(fs.y));
    Regroup(fs, fp, GrownBy(s.ch, r, has));
    TidyAgain(fs, fp, g);
  }

  /** `CreateChain` while file `fp` is open, whose chain is not recorded yet. */
  method CreateFor(fs: FatFs, fp: Fil, clst: nat) returns (r: nat)
    requires Live(fs, fp)
    modifies fs`wflag, fs`disk, fs`winsect, fs`winClust, fs`lastClst, fs`freeClst, fs`fsiDirty, fs.win
    ensures Live(fs, fp) && Sectored(Now(fs, fp).d) && SameButFat(old(Now(fs, fp)).d, Now(fs, fp).d, fs.y)
    ensures Now(fs, fp) == old(Now(fs, fp)).(d := Now(fs, fp).d, f := Now(fs, fp).f)
    ensures Allocation(old(Now(fs, fp)).f, Now(fs, fp).f, old(fs.freeClst), clst, r, Eoc(fs.y))
    ensures CountsFree(old(fs.freeClst), old(Now(fs, fp)).f) ==> CountsFree(fs.freeClst, Now(fs, fp).f)
    ensures var f := old(Now(fs, fp)).f;
            && (NeedsCluster(f, clst) && old(fs.freeClst) != 0 ==> |f| > 2 && r == Picked(f, old(fs.lastClst), clst))
            && (NeedsCluster(f, clst) && old(fs.freeClst) == 0 ==> r == 0)
            && fs.lastClst == if NeedsCluster(f, clst) && r >= 2 then r else old(fs.lastClst)
  {
    hide FatFs.Shape, FatFs.Mirrored, FatFs.View, FatFs.Fat, Allocation, CountsFree, SameButFat, NeedsCluster, Picked, NotDirs;
    LiveShape(fs, fp);
    r := CreateChain(fs, clst);
    LiveShape(fs, fp);
  }

  lemma LiveShape(fs: FatFs, fp: Fil)
    requires Live(fs, fp)
    ensures fs.Shape() && Now(fs, fp).f == fs.Fat() && Now(fs, fp).d == fs.View() && Sectored(fs.View())
    ensures |fs.Fat()| == fs.y.nFatent
  {
  }

  /** Record the clusters of file `fp`. */
  ghost method Regroup(fs: FatFs, fp: Fil, ch: seq<nat>)
    requires Live(fs, fp) && NotDirs(ch, fs.dirs)
    modifies fs`chains
    ensures Live(fs, fp) && Now(fs, fp) == old(Now(fs, fp)).(ch := ch)
    ensures fs.chains == old(fs.chains)[fp.me := ch] && fs.Fat() == old(fs.Fat())
  {
    fs.chains := fs.chains[fp.me := ch];
  }

  lemma PlacedHere(y: Layout, s: Snap)
    requires Ok(y, s) && s.st.fptr % SS == 0 && s.st.fptr / SS % y.csize == 0 && HasNext(s)
    ensures Placed(y, s, AtNext(s, s.d, s.f, NextClust(s)), 0)
    ensures AtNext(s, s.d, s.f, NextClust(s)).ch == s.ch
  {
    PlacedExisting(y, s, s.d);
  }

  /** The cluster the next byte goes to at a cluster boundary: one of the file, or a fresh one;
      0 when the disk is full. */
  method NextToWrite(fs: FatFs, fp: Fil) returns (clst: nat)
    requires Live(fs, fp) && Tidy(fs) && Ok(fs.y, Now(fs, fp))
    requires fp.fptr % SS == 0 && fp.fptr / SS % fs.y.csize == 0
    modifies fs`wflag, fs`disk, fs`winsect, fs`winClust, fs`lastClst, fs`freeClst, fs`fsiDirty, fs`chains, fs.win
    ensures Live(fs, fp) && Tidy(fs) && Now(fs, fp).st == old(Now(fs, fp)).st
    ensures fs.chains == old(fs.chains)[fp.me := Now(fs, fp).ch]
    ensures clst == 0 ==> Exhausted(fs.y, Now(fs, fp)) && Now(fs, fp) == old(Now(fs, fp)).(d := Now(fs, fp).d)
                          && Sectored(Now(fs, fp).d) && SameButFat(old(Now(fs, fp)).d, Now(fs, fp).d, fs.y)
    ensures clst != 0 ==> clst > 1 && Placed(fs.y, old(Now(fs, fp)),
                                 AtNext(old(Now(fs, fp)), Now(fs, fp).d, Now(fs, fp).f, clst), 0)
    ensures clst != 0 ==> Now(fs, fp).ch == AtNext(old(Now(fs, fp)), Now(fs, fp).d, Now(fs, fp).f, clst).ch
  {
    hide *;
    ghost var s := Now(fs, fp);
    SectorSize();
    Fields(fs, fp);
    TidyFacts(fs, fp);
    AskFacts(fs.y, s);
    clst := fp.sclust;
    if fp.fptr != 0 || clst == 0 {
      clst := Allocate(fs, fp, if fp.fptr != 0 then fp.clust else 0, HasNext(s));
      ghost var t := Now(fs, fp);
      PlacedAfter(fs.y, s, t.d, t.f, clst, Eoc(fs.y));
    } else {
      PlacedHere(fs.y, s);
      SamePlace(fs.chains, fp.me);
    }
  }

  /** Make `clst` the current cluster, and the first one of an empty file. */
  method EnterNew(fs: FatFs, fp: Fil, clst: nat, ghost i: nat)
    requires Live(fs, fp)
    modifies fp`clust, fp`ci, fp`sclust
    ensures Live(fs, fp)
    ensures Now(fs, fp) == old(Now(fs, fp)).(st := old(Now(fs, fp)).st.(clust := clst, ci := i,
                             sclust := if old(fp.sclust) == 0 then clst else old(fp.sclust)))
  {
    fp.clust := clst;
    fp.ci := i;
    if fp.sclust == 0 {
      fp.sclust := clst;
    }
  }

  lemma OkCore(y: Layout, s: Snap)
    requires Ok(y, s)
    ensures Core(y, s) && s.st.fptr <= s.st.objsize
  {
  }

  lemma StartFact(y: Layout, s: Snap)
    requires Ok(y, s)
    ensures s.st.sclust == 0 <==> s.ch == []
  {
  }

  lemma NextSnap(s: Snap, d: Disk, g: Fat, r: nat)
    requires s.st.sclust == 0 <==> s.ch == []
    ensures var t := AtNext(s, d, g, r);
            t.d == d && t.f == g && t.st == s.st.(clust := r, ci := NextIndex(s),
                                                 sclust := if s.st.sclust == 0 then r else s.st.sclust)
  {
  }

  /** At a sector boundary: find or allocate the cluster to write to; `full` when there is none.
      An error would mean a table that makes no sense; that does not happen. */
  method PlaceForWrite(fs: FatFs, fp: Fil) returns (csect: nat, full: bool, res: FResult)
    requires Live(fs, fp) && Tidy(fs) && Ok(fs.y, Now(fs, fp)) && fp.fptr % SS == 0
    modifies fs`wflag, fs`disk, fs`winsect, fs`winClust, fs`lastClst, fs`freeClst, fs`fsiDirty, fs`chains, fs.win
    modifies fp`clust, fp`ci, fp`sclust
    ensures Live(fs, fp) && Tidy(fs) && res == FrOk && fs.chains == old(fs.chains)[fp.me := Now(fs, fp).ch]
    ensures full ==> Exhausted(fs.y, Now(fs, fp)) && Now(fs, fp) == old(Now(fs, fp)).(d := Now(fs, fp).d)
                     && Sectored(Now(fs, fp).d) && SameButFat(old(Now(fs, fp)).d, Now(fs, fp).d, fs.y)
    ensures !full ==> Placed(fs.y, old(Now(fs, fp)), Now(fs, fp), csect)
  {
    hide *;
    ghost var s := Now(fs, fp);
    SectorSize();
    Fields(fs, fp);
    StartFact(fs.y, s);
    csect := fp.fptr / SS % fs.y.csize;
    full, res := false, FrOk;
    if csect == 0 {
      var clst := NextToWrite(fs, fp);
      if clst == 0 {
        full := true;
      } else if clst == 1 {
        res := FrIntErr;
      } else {
        EnterNew(fs, fp, clst, NextIndex(s));
        NextSnap(s, Now(fs, fp).d, Now(fs, fp).f, clst);
      }
    } else {
      PlacedInside(fs.y, s);
      SamePlace(fs.chains, fp.me);
    }
  }

  /** Count `n` written bytes. */
  method Account(fs: FatFs, fp: Fil, n: nat)
    requires Live(fs, fp) && fp.fptr + n <= 0xFFFF_FFFF
    modifies fp`fptr, fp`objsize
    ensures Live(fs, fp)
    ensures Now(fs, fp) == old(Now(fs, fp)).(st := old(Now(fs, fp)).st.(
                             fptr := old(fp.fptr) + n, objsize := Larger(old(fp.fptr) + n, old(fp.objsize))))
  {
    fp.fptr := fp.fptr + n;
    fp.objsize := if fp.fptr > fp.objsize then fp.fptr else fp.objsize;
  }

  /** Make a clean buffer that a direct write went past show what was written. */
  method Refill(fs: FatFs, fp: Fil, sect: nat, cc: nat, w: Bytes)
    requires Live(fs, fp) && |w| == cc * SS && !fp.dirty
    modifies fp.buf
    ensures Live(fs, fp)
    ensures Now(fs, fp) == old(Now(fs, fp)).(st := old(Now(fs, fp)).st.(
                             cache := Refilled(old(Now(fs, fp)).st.cache, sect, cc, w)))
  {
    hide FatFs.Mirrored, FatFs.Fat, FatFs.View, NotDirs;
    if sect <= fp.sect < sect + cc {
      var chunk := Chunk(w, fp.sect - sect);
      forall i | 0 <= i < SS {
        fp.buf[i] := chunk[i];
      }
      assert fp.buf[..] == chunk;
    }
  }

  /** Write data sectors while file `fp` is open. */
  method WriteRunFor(fs: FatFs, fp: Fil, sect: nat, cc: nat, w: Bytes)
    requires Live(fs, fp) && |w| == cc * SS && fs.y.database <= sect && sect + cc <= |fs.disk|
    requires !(sect <= fs.winsect < sect + cc)
    modifies fs`disk
    ensures Live(fs, fp) && Sectored(old(Now(fs, fp)).d)
    ensures Now(fs, fp) == old(Now(fs, fp)).(d := WriteRun(old(Now(fs, fp)).d, sect, cc, w))
  {
    WriteData(fs, sect, cc, w);
  }

  lemma RunTable(s: Snap, sect: nat, cc: nat, w: Bytes)
    requires Sectored(s.d) && |w| == cc * SS
    ensures WroteRun(s, sect, cc, w) ==
            Snap(WriteRun(s.d, sect, cc, w), s.f, s.ch,
                 s.st.(fptr := s.st.fptr + |w|, objsize := Larger(s.st.fptr + |w|, s.st.objsize),
                       cache := Refilled(s.st.cache, sect, cc, w)))
  {
  }

  /** Write whole sectors past the buffer. */
  method WriteWhole(fs: FatFs, fp: Fil, csect: nat, sect: nat, cc: nat, w: Bytes)
    requires Live(fs, fp) && Tidy(fs) && Core(fs.y, Now(fs, fp)) && !fp.dirty
    requires Standing(fs.y, Now(fs, fp).ch, Now(fs, fp).st, csect) && sect == fs.y.ClusterSector(fp.clust) + csect
    requires 0 < cc && csect + cc <= fs.y.csize && |w| == cc * SS && fp.fptr + |w| <= 0xFFFF_FFFF
    modifies fs`disk, fp`fptr, fp`objsize, fp.buf
    ensures Live(fs, fp) && Tidy(fs) && WriteDone(fs.y, old(Now(fs, fp)), Now(fs, fp), w)
    ensures Now(fs, fp).ch == old(Now(fs, fp)).ch
  {
    hide *;
    ghost var s := Now(fs, fp);
    Fields(fs, fp);
    StandingOnDisk(fs, fp, csect, sect, cc);
    TidyFacts(fs, fp);
    DirectWrite(fs.y, s, csect, sect, cc, w);
    RunTable(s, sect, cc, w);
    WriteRunFor(fs, fp, sect, cc, w);
    Refill(fs, fp, sect, cc, w);
    Account(fs, fp, |w|);
    TidyAgain(fs, fp, s.f);
  }

  /** Put `w` into the buffer at the file pointer. */
  method Patch(fs: FatFs, fp: Fil, w: Bytes)
    requires Live(fs, fp) && fp.fptr % SS + |w| <= SS && fp.fptr + |w| <= 0xFFFF_FFFF
    modifies fp`dirty, fp`fptr, fp`objsize, fp.buf
    ensures Live(fs, fp) && Now(fs, fp) == Wrote(old(Now(fs, fp)), w)
  {
    hide FatFs.Mirrored, FatFs.Fat, FatFs.View, NotDirs;
    var o := fp.fptr % SS;
    forall i | 0 <= i < |w| {
      fp.buf[o + i] := w[i];
    }
    assert fp.buf[..] == Overwrite(old(fp.buf[..]), o, w);
    fp.dirty := true;
    Account(fs, fp, |w|);
  }

  lemma LoadedFields(s: Snap, sect: nat)
    requires sect < |s.d|
    ensures Loaded(s, sect) == s.(st := s.st.(cache := Cache(false, sect, s.d[sect])))
  {
  }

  /** Let the buffer stand for `sect` without loading it. */
  method Retarget(fs: FatFs, fp: Fil, sect: nat)
    requires Live(fs, fp)
    modifies fp`sect
    ensures Live(fs, fp) && Now(fs, fp) == Retargeted(old(Now(fs, fp)), sect)
    ensures Now(fs, fp) == old(Now(fs, fp)).(st := old(Now(fs, fp)).st.(cache := Now(fs, fp).st.cache))
    ensures fp.sect == sect
  {
    fp.sect := sect;
  }

  /** Let the buffer stand for `sect`, loading it only if it holds bytes of the file. */
  method Target(fs: FatFs, fp: Fil, csect: nat, sect: nat)
    requires Live(fs, fp) && Tidy(fs) && Core(fs.y, Now(fs, fp)) && !fp.dirty
    requires Standing(fs.y, Now(fs, fp).ch, Now(fs, fp).st, csect) && sect == fs.y.ClusterSector(fp.clust) + csect
    modifies fp`sect, fp.buf
    ensures Live(fs, fp) && Tidy(fs) && SameFile(fs.y, old(Now(fs, fp)), Now(fs, fp)) && fp.sect == sect
    ensures Now(fs, fp) == old(Now(fs, fp)).(st := old(Now(fs, fp)).st.(cache := Now(fs, fp).st.cache))
  {
    hide *;
    ghost var s := Now(fs, fp);
    Fields(fs, fp);
    StaysStanding(fs.y, s, csect);
    StandingOnDisk(fs, fp, csect, sect, 1);
    if fp.sect != sect && fp.fptr < fp.objsize {
      LoadedSame(fs.y, s, sect);
      LoadedFields(s, sect);
      FillBuf(fs, fp, sect);
    } else {
      RetargetedSame(fs.y, s, csect, sect);
      Retarget(fs, fp, sect);
    }
    Fields(fs, fp);
  }

  lemma WroteTable(s: Snap, w: Bytes)
    ensures Wrote(s, w).f == s.f && Wrote(s, w).ch == s.ch
  {
  }

  lemma StaysThere(y: Layout, s: Snap, t: Snap, csect: nat)
    requires SameFile(y, s, t) && Standing(y, s.ch, s.st, csect) && t.st == s.st.(cache := t.st.cache)
    ensures Core(y, t) && Standing(y, t.ch, t.st, csect) && t.st.fptr % SS == 0 && t.ch == s.ch
  {
  }

  /** Write at most a sector through the buffer. */
  method WritePart(fs: FatFs, fp: Fil, csect: nat, sect: nat, w: Bytes)
    requires Live(fs, fp) && Tidy(fs) && Core(fs.y, Now(fs, fp)) && !fp.dirty
    requires Standing(fs.y, Now(fs, fp).ch, Now(fs, fp).st, csect) && sect == fs.y.ClusterSector(fp.clust) + csect
    requires 0 < |w| <= SS && fp.fptr + |w| <= 0xFFFF_FFFF
    modifies fp`sect, fp`dirty, fp`fptr, fp`objsize, fp.buf
    ensures Live(fs, fp) && Tidy(fs) && WriteDone(fs.y, old(Now(fs, fp)), Now(fs, fp), w)
    ensures Now(fs, fp).ch == old(Now(fs, fp)).ch
  {
    hide *;
    ghost var s := Now(fs, fp);
    Fields(fs, fp);
    SectorSize();
    Target(fs, fp, csect, sect);
    ghost var t := Now(fs, fp);
    Fields(fs, fp);
    TidyFacts(fs, fp);
    StaysThere(fs.y, s, t, csect);
    StartWrite(fs.y, t, csect, w);
    SameThenWrite(fs.y, s, t, Wrote(t, w), w);
    WroteTable(t, w);
    Patch(fs, fp, w);
    TidyAgain(fs, fp, t.f);
  }

  /** From the start of a sector: whole sectors past the buffer, or the rest through it. */
  method WriteHere(fs: FatFs, fp: Fil, csect: nat, w: Bytes) returns (n: nat)
    requires Live(fs, fp) && Tidy(fs) && Core(fs.y, Now(fs, fp)) && 0 < |w| && fp.fptr + |w| <= 0xFFFF_FFFF
    requires Standing(fs.y, Now(fs, fp).ch, Now(fs, fp).st, csect)
    modifies fs`disk, fp`sect, fp`dirty, fp`fptr, fp`objsize, fp.buf
    ensures Live(fs, fp) && Tidy(fs) && 0 < n <= |w| && WriteDone(fs.y, old(Now(fs, fp)), Now(fs, fp), w[..n])
    ensures Now(fs, fp).ch == old(Now(fs, fp)).ch
  {
    hide *;
    ghost var s := Now(fs, fp);
    SectorSize();
    Fields(fs, fp);
    TidyFacts(fs, fp);
    StaysStanding(fs.y, s, csect);
    StandingOnDisk(fs, fp, csect, fs.y.ClusterSector(fp.clust) + csect, 1);
    FlushBuf(fs, fp);
    ghost var t := Now(fs, fp);
    Fields(fs, fp);
    SameTable(fs.y, s, t);
    TidyAgain(fs, fp, s.f);
    var sect := Clst2Sect(fs.y, fp.clust) + csect;
    if SS <= |w| {
      var cc := Clip(fs.y.csize, csect, |w|);
      n := cc * SS;
      WriteWhole(fs, fp, csect, sect, cc, w[..n]);
    } else {
      n := |w|;
      assert w[..n] == w;
      WritePart(fs, fp, csect, sect, w);
    }
    SameThenWrite(fs.y, s, t, Now(fs, fp), w[..n]);
  }

  /** One round of writing in the middle of a sector. */
  method WriteInside(fs: FatFs, fp: Fil, w: Bytes) returns (n: nat)
    requires Live(fs, fp) && Tidy(fs) && Ok(fs.y, Now(fs, fp)) && 0 < |w| && fp.fptr + |w| <= 0xFFFF_FFFF
    requires fp.fptr % SS != 0
    modifies fp`dirty, fp`fptr, fp`objsize, fp.buf
    ensures Live(fs, fp) && Tidy(fs) && 0 < n <= |w| && WriteDone(fs.y, old(Now(fs, fp)), Now(fs, fp), w[..n])
    ensures Now(fs, fp).ch == old(Now(fs, fp)).ch
  {
    hide *;
    SectorSize();
    Fields(fs, fp);
    ghost var s := Now(fs, fp);
    TidyFacts(fs, fp);
    n := SS - fp.fptr % SS;
    if n > |w| {
      n := |w|;
    }
    MidWrite(fs.y, s, w[..n]);
    WroteTable(s, w[..n]);
    Patch(fs, fp, w[..n]);
    TidyAgain(fs, fp, s.f);
  }

  /** One round of writing that starts at a sector boundary; `n` is 0 when the disk is full. */
  method WriteAtBoundary(fs: FatFs, fp: Fil, w: Bytes) returns (n: nat, res: FResult)
    requires Live(fs, fp) && Tidy(fs) && Ok(fs.y, Now(fs, fp)) && 0 < |w| && fp.fptr + |w| <= 0xFFFF_FFFF
    requires fp.fptr % SS == 0
    modifies fs`wflag, fs`disk, fs`winsect, fs`winClust, fs`lastClst, fs`freeClst, fs`fsiDirty, fs`chains, fs.win
    modifies fp`clust, fp`ci, fp`sclust, fp`sect, fp`dirty, fp`fptr, fp`objsize, fp.buf
    ensures Live(fs, fp) && Tidy(fs) && res == FrOk && n <= |w| && fs.chains == old(fs.chains)[fp.me := Now(fs, fp).ch]
    ensures WriteDone(fs.y, old(Now(fs, fp)), Now(fs, fp), w[..n])
    ensures n == 0 ==> Exhausted(fs.y, Now(fs, fp))
  {
    hide *;
    ghost var s := Now(fs, fp);
    Fields(fs, fp);
    OkCore(fs.y, s);
    var csect, full;
    csect, full, res := PlaceForWrite(fs, fp);
    ghost var t := Now(fs, fp);
    n := 0;
    if full {
      FullSame(fs.y, s, t.d);
      Fields(fs, fp);
      assert w[..0] == [];
    } else if res == FrOk {
      PlacedFacts(fs.y, s, t, csect);
      Fields(fs, fp);
      n := WriteHere(fs, fp, csect, w);
      PlacedThenWrite(fs.y, s, t, Now(fs, fp), csect, w[..n]);
    }
  }

  /** One round of writing; `n` is 0 only when the disk is full. */
  method WriteRound(fs: FatFs, fp: Fil, w: Bytes) returns (n: nat, res: FResult)
    requires Live(fs, fp) && Tidy(fs) && Ok(fs.y, Now(fs, fp)) && 0 < |w| && fp.fptr + |w| <= 0xFFFF_FFFF
    modifies fs`wflag, fs`disk, fs`winsect, fs`winClust, fs`lastClst, fs`freeClst, fs`fsiDirty, fs`chains, fs.win
    modifies fp`clust, fp`ci, fp`sclust, fp`sect, fp`dirty, fp`fptr, fp`objsize, fp.buf
    ensures Live(fs, fp) && Tidy(fs) && res == FrOk && n <= |w| && fs.chains == old(fs.chains)[fp.me := Now(fs, fp).ch]
    ensures WriteDone(fs.y, old(Now(fs, fp)), Now(fs, fp), w[..n])
    ensures n == 0 ==> Exhausted(fs.y, Now(fs, fp))
  {
    hide Ok, Tidy, WriteDone, FatFs.Mirrored, Exhausted;
    if fp.fptr % SS == 0 {
      n, res := WriteAtBoundary(fs, fp, w);
    } else {
      n := WriteInside(fs, fp, w);
      res := FrOk;
      assert fs.chains == fs.chains[fp.me := Now(fs, fp).ch];
    }
  }

  lemma WriteOn(y: Layout, s: Snap, t: Snap, u: Snap, w: Bytes, bw: nat, n: nat)
    requires bw + n <= |w| && WriteDone(y, s, t, w[..bw]) && WriteDone(y, t, u, w[bw..][..n])
    ensures WriteDone(y, s, u, w[..bw + n])
  {
    WriteTwice(y, s, t, u, w[..bw], w[bw..][..n]);
    assert w[..bw + n] == w[..bw] + w[bw..][..n];
  }

  /** How much may be written before the size would not fit in 32 bits. */
  function Writable(fptr: nat, n: nat): (btw: nat)
    requires fptr <= 0xFFFF_FFFF && n <= 0xFFFF_FFFF
    ensures btw <= n && fptr + btw <= 0xFFFF_FFFF && (btw == n || fptr + btw == 0xFFFF_FFFF)
  {
    if (fptr + n) % 0x1_0000_0000 < fptr then 0xFFFF_FFFF - fptr else n
  }

  lemma UpdateTwice(c: seq<seq<nat>>, d: seq<seq<nat>>, e: seq<seq<nat>>, k: nat, x: seq<nat>, z: seq<nat>)
    requires k < |c| && d == c[k := x] && e == d[k := z]
    ensures e == c[k := z]
  {
  }

  /** Remember that the file was changed. */
  method MarkModified(fs: FatFs, fp: Fil)
    requires Live(fs, fp)
    modifies fp`modified
    ensures Live(fs, fp) && Now(fs, fp) == old(Now(fs, fp)) && fp.modified
  {
    fp.modified := true;
  }

  /** Rounds of writing until `w` is written or the disk is full. */
  method WriteAll(fs: FatFs, fp: Fil, w: Bytes) returns (bw: nat, res: FResult)
    requires Live(fs, fp) && Tidy(fs) && Ok(fs.y, Now(fs, fp)) && fp.fptr + |w| <= 0xFFFF_FFFF
    modifies fs`wflag, fs`disk, fs`winsect, fs`winClust, fs`lastClst, fs`freeClst, fs`fsiDirty, fs`chains, fs.win
    modifies fp`clust, fp`ci, fp`sclust, fp`sect, fp`dirty, fp`fptr, fp`objsize, fp.buf
    ensures Live(fs, fp) && Tidy(fs) && res == FrOk && bw <= |w|
    ensures fp.me < |old(fs.chains)| && fs.chains == old(fs.chains)[fp.me := Now(fs, fp).ch]
    ensures WriteDone(fs.y, old(Now(fs, fp)), Now(fs, fp), w[..bw])
    ensures bw == |w| || Exhausted(fs.y, Now(fs, fp))
  {
    hide *;
    ghost var s := Now(fs, fp);
    NothingWritten(fs.y, s);
    Fields(fs, fp);
    assert w[..0] == [] && fs.chains == fs.chains[fp.me := s.ch];
    bw, res := 0, FrOk;
    var full := false;
    while bw < |w| && !full
      invariant Live(fs, fp) && Tidy(fs) && fs.chains == old(fs.chains)[fp.me := Now(fs, fp).ch] && res == FrOk
      invariant bw <= |w| && fp.fptr == s.st.fptr + bw && WriteDone(fs.y, s, Now(fs, fp), w[..bw])
      invariant full ==> Exhausted(fs.y, Now(fs, fp))
      decreases |w| - bw, !full
    {
      ghost var t, c := Now(fs, fp), fs.chains;
      AfterWrite(fs.y, s, t, w[..bw]);
      var n;
      n, res := WriteRound(fs, fp, w[bw..]);
      full := n == 0;
      WriteOn(fs.y, s, t, Now(fs, fp), w, bw, n);
      UpdateTwice(old(fs.chains), c, fs.chains, fp.me, t.ch, Now(fs, fp).ch);
      bw := bw + n;
      AfterWrite(fs.y, s, Now(fs, fp), w[..bw]);
      Fields(fs, fp);
    }
  }

  /** Write `w` at the file pointer: exactly the first `bw` bytes of it are overwritten or
      appended, fewer than asked for only if the disk is full or the file reaches 4 GiB. */
  method FWrite(fs: FatFs, fp: Fil, w: Bytes) returns (bw: nat, res: FResult)
    requires Live(fs, fp) && Tidy(fs) && Ok(fs.y, Now(fs, fp)) && |w| <= 0xFFFF_FFFF
    modifies fs`wflag, fs`disk, fs`winsect, fs`winClust, fs`lastClst, fs`freeClst, fs`fsiDirty, fs`chains, fs.win
    modifies fp`clust, fp`ci, fp`sclust, fp`sect, fp`dirty, fp`modified, fp`fptr, fp`objsize, fp.buf
    ensures Live(fs, fp) && Tidy(fs) && fs.chains == old(fs.chains)[fp.me := Now(fs, fp).ch]
    ensures res == if fp.canWrite then FrOk else FrDenied
    ensures bw <= |w| && WriteDone(fs.y, old(Now(fs, fp)), Now(fs, fp), w[..bw])
    ensures fp.canWrite ==> bw == |w| || bw == 0xFFFF_FFFF - old(fp.fptr) || Exhausted(fs.y, Now(fs, fp))
    ensures !fp.canWrite ==> bw == 0
  {
    hide *;
    bw, res := 0, FrDenied;
    ghost var s := Now(fs, fp);
    NothingWritten(fs.y, s);
    AfterWrite(fs.y, s, s, []);
    Fields(fs, fp);
    assert w[..0] == [] && fs.chains == fs.chains[fp.me := s.ch];
    if fp.canWrite {
      var btw := Writable(fp.fptr, |w|);
      bw, res := WriteAll(fs, fp, w[..btw]);
      assert w[..btw][..bw] == w[..bw];
      MarkModified(fs, fp);
    }
  }

}
