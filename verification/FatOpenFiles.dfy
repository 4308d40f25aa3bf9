/** Several files that are open on one volume: each call on one of them is a step of the runs that
    `FatVolumeRuns` is about. */
module FatOpenFiles {
  import opened Words
  import opened FatEntry
  import opened FatVolume
  import opened FatTable
  import opened FatSectors
  import opened FatContent
  import opened FatFileState
  import opened FatWriteState
  import opened FatSeekState
  import opened FatFile
  import opened FatSeek
  import opened FatVolumeRuns
  import opened FatFormat
  import opened FatBoot
  import opened FatNewVolume

  /** A file on the volume that is not open, as a state: no bytes of it are looked at. */
  function Closed(ch: seq<nat>): FilSt {
    FilSt(0, 0, if ch == [] then 0 else ch[0], 0, 0, Cache(false, 0, seq(SS, i => 0)))
  }

  ghost function Parts(fils: seq<Fil>): set<object> {
    (set k | 0 <= k < |fils| :: fils[k] as object) + (set k | 0 <= k < |fils| :: fils[k].buf as object)
  }

  /** The state of the file with the `j`-th chain. */
  ghost function StOf(fils: seq<Fil>, ch: seq<nat>, j: nat): FilSt
    reads Parts(fils)
  {
    if exists k :: 0 <= k < |fils| && fils[k].me == j
    then var k :| 0 <= k < |fils| && fils[k].me == j; fils[k].St()
    else Closed(ch)
  }

  /** No two of them share anything. */
  ghost predicate Apart(fils: seq<Fil>) {
    forall j, k :: 0 <= j < |fils| && 0 <= k < |fils| && j != k ==>
      fils[j] != fils[k] && fils[j].buf != fils[k].buf && fils[j].me != fils[k].me
  }

  ghost predicate Open(fs: FatFs, fils: seq<Fil>)
    reads fs, fs.win, Parts(fils)
  {
    && fs.Valid() && Tidy(fs) && Apart(fils)
    && forall k :: 0 <= k < |fils| ==> Live(fs, fils[k]) && Ok(fs.y, Now(fs, fils[k]))
  }

  /** The same, but for the bytes of the `i`-th file. */
  ghost predicate OpenBut(fs: FatFs, fils: seq<Fil>, i: nat)
    reads fs, fs.win, Parts(fils)
  {
    && fs.Valid() && Tidy(fs) && Apart(fils)
    && forall k :: 0 <= k < |fils| ==> Live(fs, fils[k]) && (k != i ==> Ok(fs.y, Now(fs, fils[k])))
  }

  /** The volume and all files on it as one value. */
  ghost function VolNow(fs: FatFs, fils: seq<Fil>): Vol
    requires fs.Shape()
    reads fs, fs.win, Parts(fils)
  {
    var c := fs.chains;
    Vol(fs.View(), fs.Fat(), fs.lastClst, c, seq(|c|, j requires 0 <= j < |c| reads Parts(fils) => StOf(fils, c[j], j)))
  }

  lemma OpenedAt(fs: FatFs, fils: seq<Fil>, k: nat)
    requires Open(fs, fils) && k < |fils|
    ensures fils[k].me < |fs.chains| && At(VolNow(fs, fils), fils[k].me) == Now(fs, fils[k])
  {
    hide Ok, FatFs.Mirrored;
    assert Live(fs, fils[k]);
    assert StOf(fils, fs.chains[fils[k].me], fils[k].me) == fils[k].St();
  }

  lemma ClosedOk(y: Layout, d: Disk, f: Fat, ch: seq<nat>)
    requires IsFile(f, ch) && |f| == y.nFatent && y.Sound(|d|) && y.DataFits(|d|) && Sectored(d)
    ensures Ok(y, Snap(d, f, ch, Closed(ch)))
  {
    forall k | 0 <= k < |Sects(y, ch)|
      ensures y.database <= Sects(y, ch)[k] < |d|
    {
      SectInData(y, |d|, f, ch, k);
    }
  }

  /** Between two calls all files are in order, open or not. */
  lemma OpenOk(fs: FatFs, fils: seq<Fil>)
    requires Open(fs, fils)
    ensures VolOk(fs.y, VolNow(fs, fils))
  {
    hide Ok, FatFs.Mirrored, Closed;
    var v := VolNow(fs, fils);
    forall j | 0 <= j < |v.chains|
      ensures Ok(fs.y, At(v, j))
    {
      if exists k :: 0 <= k < |fils| && fils[k].me == j {
        var k :| 0 <= k < |fils| && fils[k].me == j;
        OpenedAt(fs, fils, k);
      } else {
        ClosedOk(fs.y, v.d, v.f, v.chains[j]);
      }
    }
  }

  // ---------- one call ----------

  /** What a caller asks of an open file. */
  datatype Request = GetBytes(n: nat) | PutBytes(w: Bytes) | GoTo(p: nat) | Cut

  /** Positions and counts have 32 bits. */
  predicate Sensible(q: Request) {
    match q
    case GoTo(p) => p <= 0xFFFF_FFFF
    case PutBytes(w) => |w| <= 0xFFFF_FFFF
    case _ => true
  }

  /** How the operation that was done fits the request: a file is read up to its end, written and extended
      as far as there is room, not left behind its end, and only changed with write access. */
  predicate Fits(q: Request, op: Op, data: Bytes, n: nat, canRead: bool, canWrite: bool, pos: nat, size: nat) {
    match q
    case GetBytes(k) => op == Read(data) && pos <= size && |data| == if !canRead then 0 else if k <= size - pos then k else size - pos
    case PutBytes(w) => n <= |w| && op == Write(w[..n]) && (canWrite || n == 0)
    case GoTo(p) =>
      if canWrite && p > size then op.Extend? && op.p == p else op == Seek(if p <= size then p else size)
    case Cut => op == if canWrite then Truncate else Read([])
  }

  /** The fields of the volume that calls change. */
  method Call(fs: FatFs, fp: Fil, q: Request) returns (data: Bytes, n: nat, res: FResult, ghost op: Op)
    requires Live(fs, fp) && Tidy(fs) && Ok(fs.y, Now(fs, fp)) && Sensible(q)
    modifies fs`wflag, fs`disk, fs`winsect, fs`winClust, fs`lastClst, fs`freeClst, fs`fsiDirty, fs`chains, fs.win, fp, fp.buf
    ensures Live(fs, fp) && Tidy(fs) && fs.chains == old(fs.chains)[fp.me := Now(fs, fp).ch]
    ensures Does(fs.y, op, old(Now(fs, fp)), old(fs.lastClst), Now(fs, fp), fs.lastClst)
    ensures Fits(q, op, data, n, fp.canRead, fp.canWrite, old(fp.fptr), old(fp.objsize))
    ensures q.PutBytes? && fp.canWrite && n < |q.w| ==> n == 0xFFFF_FFFF - old(fp.fptr) || Exhausted(fs.y, Now(fs, fp))
  {
    hide Ok, Live, Tidy, Now, ReadDone, WriteDone, SeekDone, SeekGrown, TruncateDone, Exhausted, FatFs.Shape, FatFs.Valid;
    data, n := [], 0;
    ghost var s := Now(fs, fp);
    Fields(fs, fp);
    Inside(fs.y, s);
    SamePlace(fs.chains, fp.me);
    NothingRead(fs.y, s);
    match q {
      case GetBytes(k) =>
        data, res := FRead(fs, fp, k);
        op := Read(data);
      case PutBytes(w) =>
        n, res := FWrite(fs, fp, w);
        op := Write(w[..n]);
      case GoTo(p) =>
        res := FLseek(fs, fp, p);
        op := Seek(if p <= s.st.objsize then p else s.st.objsize);
        if fp.canWrite && p > s.st.objsize {
          op := GrownIsExtend(fs.y, s, old(fs.lastClst), Now(fs, fp), fs.lastClst, p);
        }
      case Cut =>
        res := FTruncate(fs, fp);
        op := if fp.canWrite then Truncate else Read([]);
    }
    Fields(fs, fp);
  }

  lemma Inside(y: Layout, s: Snap)
    requires Ok(y, s)
    ensures s.st.fptr <= s.st.objsize
  {
  }

  // ---------- one call among several open files ----------

  /** A call on the `i`-th open file, whatever other files are open: it is a step of the runs, in which
      no other file's state or chain changes.  All files are in order afterwards if and only if it is not a
      seek behind the end that was misled, and all but this one are in any case. */
  method Perform(fs: FatFs, fils: seq<Fil>, i: nat, q: Request) returns (data: Bytes, n: nat, res: FResult, ghost op: Op)
    requires Open(fs, fils) && i < |fils| && Sensible(q)
    modifies fs`wflag, fs`disk, fs`winsect, fs`winClust, fs`lastClst, fs`freeClst, fs`fsiDirty, fs`chains, fs.win
    modifies fils[i], fils[i].buf
    ensures OpenBut(fs, fils, i) && Step(fs.y, old(VolNow(fs, fils)), fils[i].me, op, VolNow(fs, fils))
    ensures Open(fs, fils) <==> !Misleads(fs.y, op, old(Now(fs, fils[i])), old(fs.lastClst))
    ensures Fits(q, op, data, n, fils[i].canRead, fils[i].canWrite, old(fils[i].fptr), old(fils[i].objsize))
    ensures q.PutBytes? && fils[i].canWrite && n < |q.w| ==>
              n == 0xFFFF_FFFF - old(fils[i].fptr) || Exhausted(fs.y, Now(fs, fils[i]))
  {
    hide Ok, Does, Misleads, Exhausted, Fits, Tidy, Step, FatFs.Mirrored, FatFs.Shape, Closed, VolOk, WellFormed, AllocOk, NotDirs;
    ghost var v, me := VolNow(fs, fils), fils[i].me;
    OpenOk(fs, fils);
    OpenedAt(fs, fils, i);
    data, n, res, op := Call(fs, fils[i], q);
    TidyShape(fs);
    ghost var w := VolNow(fs, fils);
    forall k | 0 <= k < |fils| && k != i
      ensures fils[k].St() == old(fils[k].St()) && Live(fs, fils[k])
    {
      assert fils[k] != fils[i] && fils[k].buf != fils[i].buf && fils[k].me != me && old(Live(fs, fils[k]));
    }
    forall j | 0 <= j < |v.chains| && j != me
      ensures w.sts[j] == v.sts[j]
    {
    }
    MeSt(fs, fils, i);
    StepDone(fs.y, v, w, me, op);
    forall k | 0 <= k < |fils| && k != i
      ensures Ok(fs.y, Now(fs, fils[k]))
    {
      MeSt(fs, fils, k);
      OthersUntouched(fs.y, v, me, op, w, fils[k].me);
    }
  }

  lemma TidyShape(fs: FatFs)
    requires Tidy(fs)
    ensures fs.Shape() && WellFormed(fs.Fat(), fs.chains) && |fs.Fat()| == fs.y.nFatent
  {
  }

  lemma MeSt(fs: FatFs, fils: seq<Fil>, k: nat)
    requires fs.Shape() && Apart(fils) && k < |fils| && fils[k].me < |fs.chains|
    ensures At(VolNow(fs, fils), fils[k].me) == Now(fs, fils[k])
  {
    hide FatFs.Shape, FatFs.Mirrored;
    assert StOf(fils, fs.chains[fils[k].me], fils[k].me) == fils[k].St();
  }

  lemma StepDone(y: Layout, v: Vol, w: Vol, me: nat, op: Op)
    requires VolOk(y, v) && me < |v.chains| == |v.sts| == |w.chains| == |w.sts|
    requires w.chains == v.chains[me := w.chains[me]] && w.sts == v.sts[me := w.sts[me]]
    requires WellFormed(w.f, w.chains) && |w.f| == |v.f| && Does(y, op, At(v, me), v.last, At(w, me), w.last)
    ensures Step(y, v, me, op, w) && (Ok(y, At(w, me)) <==> !Misleads(y, op, At(v, me), v.last))
  {
    hide VolOk, WellFormed, Does, Misleads, Ok;
    OnlyOwn(y, op, At(v, me), v.last, At(w, me), w.last);
  }

  // ---------- getting there ----------

  /** Further empty files fit every table. */
  lemma {:induction false} MoreFiles(f: Fat, chains: seq<seq<nat>>, n: nat)
    requires WellFormed(f, chains)
    ensures WellFormed(f, chains + seq(n, _ => []))
  {
    var r := chains + seq(n, _ => []);
    forall c | 2 <= c < |f| && f[c] != 0
      ensures InSome(r, c)
    {
      var k :| 0 <= k < |chains| && c in chains[k];
      assert c in r[k];
    }
  }

  /** Mount a volume whose table is a set of chains, those of the files and directories on it. */
  method MountFiles(y: Layout, disk: Disk, sect: nat, free: nat, last: nat, ghost files: seq<seq<nat>>, ghost dirs: set<nat>)
    returns (fs: FatFs)
    requires Sectored(disk) && y.Sound(|disk|) && y.DataFits(|disk|) && sect < y.database && !y.InMirror(sect)
    requires y.nFats == 2 ==> forall s :: y.InTable(s) ==> disk[s + y.fsize] == disk[s]
    requires var f := Entries(TableBytes(disk, y), y, |disk|); WellFormed(f, files) && Sane(f) && CountsFree(free, f) && forall c :: c in dirs && c < |f| ==> f[c] != 0
    ensures fresh(fs) && fresh(fs.win) && Open(fs, []) && fs.y == y && fs.View() == disk && fs.chains == files && fs.dirs == dirs
  {
    hide WellFormed, Sane, CountsFree, FatFs.Mirrored;
    fs := new FatFs(y, disk, sect, free, last, files, dirs);
  }

  /** The clusters of directories on a new volume: on FAT32 that of the root directory. */
  ghost function RootDir(t: FatType): set<nat> {
    if t == Fat32 then {2} else {}
  }

  lemma RootUsed(f: Fat, t: FatType)
    requires NewTable(f, t)
    ensures forall c :: c in RootDir(t) && c < |f| ==> f[c] != 0
  {
  }

  /** Mount a volume that has just been formatted, with room for `n` new files. */
  method MountNewVolume(e: Disk, ghost d: Disk, o: Opts, c: Config, vsn: nat, ghost n: nat) returns (fs: FatFs)
    requires Usable(o) && Fitting(o, c) && c.clusters > 0 && Sectored(d) && |d| == o.vol && FatNewVolume.Writable(o, c) && e == NewDisk(d, o, c, vsn)
    ensures fresh(fs) && fresh(fs.win) && Open(fs, []) && fs.View() == e && fs.chains == NewChains(c.t) + seq(n, _ => []) && fs.dirs == RootDir(c.t)
    ensures fs.y == VolumeOf(o, c, e[1]).y
  {
    hide Fitting, NewDisk, WellFormed, Sane, CountsFree, TableBytes, Layout.Sound, Mount, Open, NewChains, InfoSigned, Front, NewTable;
    NewVolumeMounts(d, o, c, vsn);
    SectorSized(e, 0);
    SectorSized(e, 1);
    var v := MountVolume(e);
    MoreFiles(Entries(TableBytes(e, v.y), v.y, |e|), NewChains(c.t), n);
    FrontOutside(v.y, |e|);
    RootUsed(Entries(TableBytes(e, v.y), v.y, |e|), c.t);
    fs := MountFiles(v.y, e, 0, v.free, v.last, NewChains(c.t) + seq(n, _ => []), RootDir(c.t));
  }

  lemma FrontOutside(y: Layout, sectors: nat)
    requires y.Sound(sectors)
    ensures 0 < y.database && !y.InMirror(0)
  {
  }

  /** Open a file whose directory entry says where it starts and how long it is. */
  method OpenFile(fs: FatFs, fils: seq<Fil>, start: nat, size: nat, canRead: bool, canWrite: bool, ghost me: nat) returns (fp: Fil)
    requires Open(fs, fils) && me < |fs.chains| && NotDirs(fs.chains[me], fs.dirs) && forall k :: 0 <= k < |fils| ==> fils[k].me != me
    requires start == if fs.chains[me] == [] then 0 else fs.chains[me][0]
    requires size <= |Sects(fs.y, fs.chains[me])| * SS && size <= 0xFFFF_FFFF
    ensures fresh(fp) && fresh(fp.buf) && Open(fs, fils + [fp]) && fp.me == me && fp.fptr == 0 && fp.objsize == size
    ensures fp.canRead == canRead && fp.canWrite == canWrite
  {
    hide Ok, Live, Now, Tidy, Open, Apart, WellFormed, FatFs.Mirrored, FatFs.Shape, FatFs.Valid, NotDirs, IsFile;
    OpenedChain(fs, fils, me);
    ApartFacts(fs, fils);
    fp := new Fil(fs, start, size, canRead, canWrite, me);
    NowOpen(fs, fils, fp);
  }

  lemma ApartFacts(fs: FatFs, fils: seq<Fil>)
    requires Open(fs, fils)
    ensures Apart(fils) && fs.Valid() && Tidy(fs)
    ensures forall k :: 0 <= k < |fils| ==> Live(fs, fils[k]) && Ok(fs.y, Now(fs, fils[k]))
  {
    hide Ok, Live, Now, Tidy, FatFs.Valid;
  }

  lemma NowOpen(fs: FatFs, fils: seq<Fil>, fp: Fil)
    requires Apart(fils) && fs.Valid() && Tidy(fs) && Live(fs, fp) && Ok(fs.y, Now(fs, fp))
    requires forall k :: 0 <= k < |fils| ==> Live(fs, fils[k]) && Ok(fs.y, Now(fs, fils[k]))
    requires forall k :: 0 <= k < |fils| ==> fils[k] != fp && fils[k].buf != fp.buf && fils[k].me != fp.me
    ensures Open(fs, fils + [fp])
  {
    hide Ok, Live, Now, Tidy, FatFs.Valid;
  }

  lemma OpenedChain(fs: FatFs, fils: seq<Fil>, me: nat)
    requires Open(fs, fils) && me < |fs.chains|
    ensures fs.Shape() && IsFile(fs.Fat(), fs.chains[me])
  {
  }
}
