/** A run, from formatting a drive on, in which a seek behind the end of a file is misled by its buffer. */
module FatMisled {
  import opened Words
  import opened FatEntry
  import opened FatVolume
  import opened FatTable
  import FatChain
  import opened FatSectors
  import opened FatContent
  import opened FatFileState
  import opened FatWriteState
  import opened FatSeekState
  import opened FatFile
  import opened FatVolumeRuns
  import opened FatOpenFiles
  import opened FatFormat
  import opened FatBoot
  import opened FatNewVolume

  /** 129 sectors, aligned to 128: one cluster, of one sector, behind a front of 128. */
  const SMALL: Layout := Layout(Fat12, 1, 1, 126, 128, 1, 3)
  const DATA: nat := 128

  lemma SmallIs()
    ensures SMALL.nFatent == 3 && SMALL.csize == 1 && Bcs(SMALL) == SS == 512 && SMALL.ClusterSector(2) == DATA
    ensures !SMALL.InTable(DATA) && !SMALL.InMirror(DATA) && Sects(SMALL, [2]) == [DATA] && Sects(SMALL, []) == []
  {
    SectsLen(SMALL, [2]);
    SectsAt(SMALL, [2], 0, 0);
    SectsLen(SMALL, []);
  }

  // ---------- one file at a time ----------

  /** A file of the small volume has at most its one cluster. */
  lemma OneCluster(f: Fat, ch: seq<nat>)
    requires |f| == 3 && IsFile(f, ch)
    ensures ch == [] || ch == [2]
  {
    if ch != [] {
      ChainAcyclic(f, ch);
      assert forall i :: 0 <= i < |ch| ==> ch[i] == 2;
      assert ch[0] == ch[|ch| - 1];
    }
  }

  /** A file that holds the one byte `x`, and the buffer that shows it. */
  ghost predicate Holds(s: Snap, x: Byte) {
    && Ok(SMALL, s) && |s.f| == 3 && s.ch == [2] && BytesOf(SMALL, s) == [x] && s.st.objsize == 1
    && Buffered(s.st, x)
  }

  ghost predicate Buffered(st: FilSt, x: Byte) {
    st.cache.sect == DATA && |st.cache.buf| == SS && st.cache.buf[0] == x
  }

  /** Writing a byte to an empty file leaves it in the buffer. */
  lemma WritesOne(s: Snap, t: Snap, x: Byte)
    requires Ok(SMALL, s) && s.st.objsize == 0 && WriteDone(SMALL, s, t, [x])
    ensures Holds(t, x)
  {
    SmallIs();
    assert |BytesOf(SMALL, s)| == 0;
    assert BytesOf(SMALL, t) == [x];
    OneCluster(t.f, t.ch);
    assert t.ch == [2] && t.st.fptr == 1;
    assert 1 / SS == 0 && 1 % SS == 1;
    ShowsByte(t, x);
  }

  /** The bytes of a file are in its buffer where that shows them. */
  lemma ShowsByte(t: Snap, x: Byte)
    requires Core(SMALL, t) && t.ch == [2] && t.st.cache.sect == DATA && BytesOf(SMALL, t) == [x]
    ensures Buffered(t.st, x) && (!t.st.cache.dirty ==> DATA < |t.d| && t.d[DATA] == t.st.cache.buf)
  {
    SmallIs();
    assert |BytesOf(SMALL, t)| == t.st.objsize && 0 / SS == 0 && 0 % SS == 0;
    assert BytesOf(SMALL, t)[0] == SectorData(t.d, Sects(SMALL, t.ch), t.st.cache, 0)[0];
    assert 0 * SS < t.st.objsize && Sects(SMALL, t.ch)[0] == DATA;
  }

  /** Seeking back to the start changes neither buffer nor data. */
  lemma GoesBack(s: Snap, t: Snap, x: Byte)
    requires Holds(s, x) && SeekDone(SMALL, s, t, 0)
    ensures Holds(t, x) && t.st.fptr == 0
  {
  }

  /** Cutting the file there gives its cluster back and writes the buffer to it. */
  lemma CutsAll(s: Snap, t: Snap, x: Byte)
    requires Holds(s, x) && s.st.fptr == 0 && TruncateDone(SMALL, s, t)
    ensures Ok(SMALL, t) && t.ch == [] && t.st.objsize == 0 && Buffered(t.st, x) && !t.st.cache.dirty
    ensures DATA < |t.d| && |t.d[DATA]| == SS && t.d[DATA][0] == x
  {
    SmallIs();
    ShowsByte(s, x);
    assert s.ch[..Kept(s)] == [];
    FlushedSame(SMALL, s);
  }

  // ---------- two files on the volume ----------

  /** Two files without clusters; so the one cluster is free. */
  ghost predicate Bare(v: Vol) {
    && VolOk(SMALL, v) && |v.f| == 3 && v.chains == [[], []] && |v.sts| == 2 && Sane(v.f)
  }

  lemma BareFacts(v: Vol, i: nat)
    requires Bare(v) && i < 2
    ensures Ok(SMALL, At(v, i)) && At(v, i).ch == [] && At(v, i).st.objsize == 0 == At(v, i).st.fptr && v.f[2] == 0
  {
    SmallIs();
    assert Ok(SMALL, At(v, i));
    assert !InSome(v.chains, 2);
  }

  /** There is room for a byte. */
  lemma NotFull(v: Vol, i: nat, x: Byte, w: Vol, n: nat)
    requires Bare(v) && i < 2 && n <= 1 && Step(SMALL, v, i, Write([x][..n]), w)
    ensures Exhausted(SMALL, At(w, i)) ==> n == 1
    ensures n == 1 ==> [x][..n] == [x]
  {
    BareFacts(v, i);
    SmallIs();
    if n == 0 {
      assert w.sts[i].fptr == 0;
      if w.chains[i] == [] {
        assert w.chains == [[], []] && !InSome(w.chains, 2);
      } else {
        Monotone(1, |w.chains[i]|, SS);
      }
    }
  }

  /** One file has written `x` and has been cut to nothing: its buffer still shows the cluster, which
      holds `x` and is free again. */
  lemma Round(v0: Vol, v1: Vol, v2: Vol, v3: Vol, i: nat, x: Byte)
    requires Bare(v0) && i < 2 && Sane(v3.f)
    requires Step(SMALL, v0, i, Write([x]), v1) && Step(SMALL, v1, i, Seek(0), v2) && Step(SMALL, v2, i, Truncate, v3)
    ensures Bare(v3) && Buffered(v3.sts[i], x) && !v3.sts[i].cache.dirty && v3.sts[1 - i] == v0.sts[1 - i]
    ensures DATA < |v3.d| && |v3.d[DATA]| == SS && v3.d[DATA][0] == x
  {
    BareFacts(v0, i);
    WritesOne(At(v0, i), At(v1, i), x);
    GoesBack(At(v1, i), At(v2, i), x);
    CutsAll(At(v2, i), At(v3, i), x);
    hide Ok, Does, Misleads, VolOk, Holds;
    StepKeeps(SMALL, v0, i, Write([x]), v1);
    StepKeeps(SMALL, v1, i, Seek(0), v2);
    StepKeeps(SMALL, v2, i, Truncate, v3);
    NeverMisled(Write([x]), At(v0, i), v0.last);
    NeverMisled(Seek(0), At(v1, i), v1.last);
    NeverMisled(Truncate, At(v2, i), v2.last);
    assert v3.chains == [[], []];
  }

  lemma NeverMisled(op: Op, s: Snap, last: nat)
    requires !op.Extend?
    ensures !Misleads(SMALL, op, s, last)
  {
  }

  /** The cluster that a seek to byte 100 will get is the one its buffer seems to show. */
  lemma WillBeMisled(v: Vol)
    requires Bare(v) && Buffered(v.sts[0], 1) && !v.sts[0].cache.dirty
    requires DATA < |v.d| && |v.d[DATA]| == SS && v.d[DATA][0] == 2
    ensures Misled(SMALL, At(v, 0), v.last, 100)
    ensures Room(SMALL, At(v, 0), v.last, 100).ch == [2] && Landing(SMALL, At(v, 0), v.last, 100) == 100
  {
    SmallIs();
    BareFacts(v, 0);
    var s, eoc := At(v, 0), FatChain.Eoc(SMALL);
    assert Needed(SMALL, 100) == 1;
    FatChain.PickedAll(v.f, v.last, 0);
    PickedNone(v.f, v.last, 0);
    assert Picked(v.f, v.last, 0) == 2;
    var g := Stretched(v.f, [], 2, eoc);
    assert Handed(Supply(g, 2, [2]), 1, eoc) == Supply(g, 2, [2]);
    assert [] + [2] == [2];
    assert Room(SMALL, s, v.last, 100) == Supply(g, 2, [2]);
    assert !InStep(s);
    assert 100 / SS == 0 && 100 % SS == 100;
    assert Covers(SMALL, [2], 100, DATA) by {
      assert 0 * SS < 100 && Sects(SMALL, [2])[0] == DATA;
    }
  }

  /** After it the buffer shows 1 where the disk holds 2. */
  lemma WasMisled(v: Vol, w: Vol, op: Op)
    requires Bare(v) && Buffered(v.sts[0], 1) && !v.sts[0].cache.dirty
    requires DATA < |v.d| && |v.d[DATA]| == SS && v.d[DATA][0] == 2
    requires op.Extend? && op.p == 100 && Step(SMALL, v, 0, op, w)
    ensures Misleads(SMALL, op, At(v, 0), v.last) && !Ok(SMALL, At(w, 0))
    ensures w.chains[0] == [2] && w.sts[0].fptr == w.sts[0].objsize == 100 && Buffered(w.sts[0], 1) && !w.sts[0].cache.dirty
    ensures DATA < |w.d| && |w.d[DATA]| == SS && w.d[DATA][0] == 2
  {
    WillBeMisled(v);
    SmallIs();
    hide Misled, Ok, Room, Landing, Core;
  }

  // ---------- the run ----------

  /** What was asked for, and the layout that was settled on. */
  const WISH: Wish := Wish(true, false, 128, 1, 16, 512)
  const OPTS: Opts := Opts(129, 128, 1, 16, 1, true, false)
  const CONFIG: Config := Config(Fat12, 1, 1, 126, 1, 1)

  lemma LayoutChosen()
    ensures Chosen(WISH, Drive(129, 1)) == Ready(OPTS, CONFIG)
    ensures Usable(OPTS) && Fitting(OPTS, CONFIG) && Front(OPTS, CONFIG) == 128
  {
    assert Pow2(16) && Pow2(128) && Pow2(512);
    assert Normal(WISH, Drive(129, 1)) == OPTS;
    AttemptIs();
    ChosenFits(WISH, Drive(129, 1));
  }

  lemma AttemptIs()
    ensures Attempt16(OPTS, 1) == Done(CONFIG)
  {
    assert Estimate(129, 1) == 129;
    assert FatBytes(129) == 197 && Fat0(129) == 1;
    assert Pad(3, 128) == 125;
    assert Clusters(129, 128, 1) == 1;
  }

  /** Two files are open that may be written. */
  ghost predicate Two(fs: FatFs, fils: seq<Fil>)
    reads fs, fs.win, Parts(fils)
  {
    && Open(fs, fils) && fs.y == SMALL && |fs.chains| == 2 && |fils| == 2
    && fils[0].me == 0 && fils[1].me == 1 && fils[0].canWrite && fils[1].canWrite
  }

  /** What a call on one of them does. */
  ghost predicate Meant(q: Request, op: Op, n: nat, size: nat) {
    match q
    case GetBytes(k) => op.Read?
    case PutBytes(w) => n <= |w| && op == Write(w[..n])
    case GoTo(p) => if p <= size then op == Seek(p) else op.Extend? && op.p == p
    case Cut => op == Truncate
  }

  lemma FitsMeans(q: Request, op: Op, data: Bytes, n: nat, canRead: bool, pos: nat, size: nat)
    requires Fits(q, op, data, n, canRead, true, pos, size)
    ensures Meant(q, op, n, size)
  {
  }

  lemma TwoFacts(fs: FatFs, fils: seq<Fil>)
    requires Two(fs, fils)
    ensures fs.y == SMALL && fs.Shape() && Sane(fs.Fat()) && |fs.Fat()| == 3 && VolOk(SMALL, VolNow(fs, fils))
    ensures |fils| == 2 && forall k :: 0 <= k < 2 ==> fils[k].me == k && At(VolNow(fs, fils), k) == Now(fs, fils[k])
    ensures VolNow(fs, fils).chains == fs.chains && |fs.chains| == 2 && VolNow(fs, fils).f == fs.Fat()
  {
    hide Ok, FatFs.Mirrored, VolOk;
    OpenOk(fs, fils);
    OpenedAt(fs, fils, 0);
    OpenedAt(fs, fils, 1);
  }

  lemma ButFacts(fs: FatFs, fils: seq<Fil>, i: nat)
    requires OpenBut(fs, fils, i) && |fils| == 2 && |fs.chains| == 2 && fils[0].me == 0 && fils[1].me == 1
    ensures fs.Shape() && forall k :: 0 <= k < 2 ==> At(VolNow(fs, fils), k) == Now(fs, fils[k])
  {
    hide Ok, FatFs.Mirrored;
    MeSt(fs, fils, 0);
    MeSt(fs, fils, 1);
  }

  lemma StepSize(v: Vol, i: nat, op: Op, w: Vol)
    requires Step(SMALL, v, i, op, w)
    ensures |w.chains| == |v.chains|
  {
  }

  lemma SameVolume(fs: FatFs, fils: seq<Fil>)
    requires fs.Shape()
    ensures VolNow(fs, fils).chains == fs.chains
  {
  }

  /** One call on one of the files. */
  method Do(fs: FatFs, fils: seq<Fil>, i: nat, q: Request) returns (n: nat, ghost op: Op)
    requires Two(fs, fils) && i < 2 && Sensible(q)
    modifies fs`wflag, fs`disk, fs`winsect, fs`winClust, fs`lastClst, fs`freeClst, fs`fsiDirty, fs`chains, fs.win
    modifies fils[i], fils[i].buf
    ensures old(fs.Shape()) && fs.Shape() && Step(SMALL, old(VolNow(fs, fils)), i, op, VolNow(fs, fils))
    ensures Meant(q, op, n, old(fils[i].objsize)) && (!op.Extend? ==> Two(fs, fils))
    ensures |fs.chains| == 2 && forall k :: 0 <= k < 2 ==> At(VolNow(fs, fils), k) == Now(fs, fils[k])
    ensures q.PutBytes? && n < |q.w| ==> n == 0xFFFF_FFFF - old(fils[i].fptr) || Exhausted(SMALL, Now(fs, fils[i]))
  {
    hide Open, OpenBut, Step, Misleads, FatFs.Shape, FatFs.Valid, Exhausted, VolOk, Now, VolNow, Fits, Meant, Sane;
    TwoFacts(fs, fils);
    ghost var v, s, last := VolNow(fs, fils), Now(fs, fils[i]), fs.lastClst;
    SameVolume(fs, fils);
    var data, res;
    data, n, res, op := Perform(fs, fils, i, q);
    FitsMeans(q, op, data, n, fils[i].canRead, old(fils[i].fptr), old(fils[i].objsize));
    OpenShape(fs, fils, i);
    SameVolume(fs, fils);
    StepSize(v, i, op, VolNow(fs, fils));
    ButFacts(fs, fils, i);
    if !op.Extend? {
      NeverMisled(op, s, last);
    }
  }

  lemma OpenShape(fs: FatFs, fils: seq<Fil>, i: nat)
    requires OpenBut(fs, fils, i)
    ensures fs.Shape()
  {
  }

  lemma TwoBare(fs: FatFs, fils: seq<Fil>)
    requires Two(fs, fils) && fs.chains == [[], []]
    ensures fs.Shape() && Bare(VolNow(fs, fils))
  {
    hide Open, VolOk;
    TwoFacts(fs, fils);
  }

  lemma StFields(fs: FatFs, fp: Fil)
    ensures Now(fs, fp).st == fp.St() && fp.St().fptr == fp.fptr && fp.St().objsize == fp.objsize
    ensures fp.St().cache == Cache(fp.dirty, fp.sect, fp.buf[..])
  {
  }

  /** File `i` writes a byte, goes back to its start and is cut there. */
  method WriteAndCut(fs: FatFs, fils: seq<Fil>, i: nat, x: Byte)
    requires Two(fs, fils) && fs.chains == [[], []] && i < 2
    modifies fs`wflag, fs`disk, fs`winsect, fs`winClust, fs`lastClst, fs`freeClst, fs`fsiDirty, fs`chains, fs.win
    modifies fils[i], fils[i].buf
    ensures Two(fs, fils) && fs.chains == [[], []] && old(fs.Shape()) && fs.Shape()
    ensures var v, w := old(VolNow(fs, fils)), VolNow(fs, fils); Cleared(v, w, i, x)
  {
    hide Two, Step, FatFs.Shape, Exhausted, VolOk, Now, VolNow, Bare, Holds;
    TwoBare(fs, fils);
    TwoFacts(fs, fils);
    ghost var v0 := VolNow(fs, fils);
    BareFacts(v0, i);
    BareChains(v0);
    StFields(fs, fils[i]);
    var n, op := Do(fs, fils, i, PutBytes([x]));
    ghost var v1 := VolNow(fs, fils);
    NotFull(v0, i, x, v1, n);
    n, op := Do(fs, fils, i, GoTo(0));
    ghost var v2 := VolNow(fs, fils);
    n, op := Do(fs, fils, i, Cut);
    ghost var v3 := VolNow(fs, fils);
    TwoFacts(fs, fils);
    Round(v0, v1, v2, v3, i, x);
    BareChains(v3);
  }

  lemma BareChains(v: Vol)
    requires Bare(v)
    ensures v.chains == [[], []] && |v.sts| == 2
  {
  }

  /** `x` was written by file `i` and its cluster given back. */
  ghost predicate Cleared(v: Vol, w: Vol, i: nat, x: Byte) {
    && i < 2 && |v.sts| == |w.sts| == 2 && Bare(w) && Buffered(w.sts[i], x) && !w.sts[i].cache.dirty && w.sts[1 - i] == v.sts[1 - i]
    && DATA < |w.d| && |w.d[DATA]| == SS && w.d[DATA][0] == x
  }

  // ---------- from formatting on ----------

  lemma NewSmall(e: Disk)
    requires |e| > 1 && |e[1]| == SS
    ensures VolumeOf(OPTS, CONFIG, e[1]).y == SMALL && NewChains(Fat12) + seq(2, _ => []) == [[], []]
  {
    LayoutChosen();
    var c: seq<seq<nat>> := NewChains(Fat12) + seq(2, _ => []);
    assert c == [[], []];
  }

  /** A drive of 129 sectors, formatted with one cluster, mounted, with two new files. */
  method Setup() returns (fs: FatFs, a: Fil, b: Fil)
    ensures Two(fs, [a, b]) && fs.chains == [[], []]
    ensures fresh(fs) && fresh(fs.win) && fresh(a) && fresh(a.buf) && fresh(b) && fresh(b.buf)
  {
    hide Open, NewDisk, Sane, CountsFree, WellFormed, Fitting, Usable, NewChains, FatNewVolume.Writable, FatFormat.Chosen, VolumeOf;
    LayoutChosen();
    var disk := new Bytes[129](_ => seq(SS, _ => 0));
    ghost var d := disk[..];
    var r := Mkfs(disk, WISH, 1, 0, 1);
    assert r == Ready(OPTS, CONFIG);
    var e := disk[..];
    fs := MountNewVolume(e, d, OPTS, CONFIG, 0, 2);
    NewSmall(e);
    a := OpenFile(fs, [], 0, 0, true, true, 0);
    assert [] + [a] == [a];
    b := OpenFile(fs, [a], 0, 0, true, true, 1);
    assert [a] + [b] == [a, b];
  }

  /** What the two rounds leave. */
  ghost predicate Trap(v: Vol) {
    && Bare(v) && Buffered(v.sts[0], 1) && !v.sts[0].cache.dirty
    && DATA < |v.d| && |v.d[DATA]| == SS && v.d[DATA][0] == 2
  }

  lemma BothCleared(u: Vol, v: Vol, w: Vol)
    requires Cleared(u, v, 0, 1) && Cleared(v, w, 1, 2)
    ensures Trap(w)
  {
    hide Bare, Buffered;
    BareChains(w);
  }

  /** First one file writes and is cut, then the other one. */
  method SetTrap(fs: FatFs, fils: seq<Fil>)
    requires Two(fs, fils) && fs.chains == [[], []]
    modifies fs`wflag, fs`disk, fs`winsect, fs`winClust, fs`lastClst, fs`freeClst, fs`fsiDirty, fs`chains, fs.win
    modifies fils[0], fils[0].buf, fils[1], fils[1].buf
    ensures Two(fs, fils) && fs.chains == [[], []] && fs.Shape() && Trap(VolNow(fs, fils))
  {
    hide Two, FatFs.Shape, Now, VolNow, Cleared, Trap;
    TwoFacts(fs, fils);
    ghost var u := VolNow(fs, fils);
    WriteAndCut(fs, fils, 0, 1);
    TwoFacts(fs, fils);
    ghost var v := VolNow(fs, fils);
    WriteAndCut(fs, fils, 1, 2);
    BothCleared(u, v, VolNow(fs, fils));
  }

  /** The outcome of the seek. */
  ghost predicate Wrong(w: Vol) {
    && |w.chains| == |w.sts| == 2 && w.chains[0] == [2] && !Ok(SMALL, At(w, 0))
    && w.sts[0].fptr == w.sts[0].objsize == 100 && Buffered(w.sts[0], 1) && !w.sts[0].cache.dirty
    && DATA < |w.d| && |w.d[DATA]| == SS && w.d[DATA][0] == 2
  }

  /** File `a` writes a byte and is cut to nothing; file `b` takes the cluster, writes another byte and is
      cut to nothing; `a` seeks to byte 100 and gets the cluster back.  Its buffer is taken to show that
      cluster, but shows what `a` wrote there first, while the disk holds what `b` wrote. */
  method MisledSeek() returns (fs: FatFs, a: Fil, b: Fil)
    ensures fs.y == SMALL && fs.Shape() && Wrong(VolNow(fs, [a, b])) && At(VolNow(fs, [a, b]), 0) == Now(fs, a)
  {
    hide Two, Step, FatFs.Shape, VolOk, Now, VolNow, Trap, Wrong;
    fs, a, b := Setup();
    var fils := [a, b];
    SetTrap(fs, fils);
    TwoFacts(fs, fils);
    ghost var v := VolNow(fs, fils);
    TrapFacts(v);
    StFields(fs, a);
    var n, op := Do(fs, fils, 0, GoTo(100));
    GoesWrong100(v, VolNow(fs, fils), op);
  }

  lemma TrapFacts(v: Vol)
    requires Trap(v)
    ensures |v.sts| == 2 && |v.chains| == 2 && v.sts[0].objsize == 0
  {
    hide VolOk, Buffered;
    BareFacts(v, 0);
  }

  lemma GoesWrong100(v: Vol, w: Vol, op: Op)
    requires Trap(v) && op.Extend? && op.p == 100 && Step(SMALL, v, 0, op, w)
    ensures Wrong(w)
  {
    hide Bare, Buffered, Ok, Misleads, Does;
    BareChains(v);
    WasMisled(v, w, op);
  }
}
