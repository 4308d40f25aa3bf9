/** Moving the file pointer and cutting a file. */
module FatSeek {
  import opened Words
  import opened FatEntry
  import opened FatVolume
  import opened FatTable
  import opened FatChain
  import opened FatSectors
  import opened FatContent
  import opened FatFileState
  import opened FatWriteState
  import opened FatSeekState
  import opened FatFile

  // ---------- seeking ----------

  /** Put the file pointer to byte `p` and make cluster `clst`, the `i`-th, the current one. */
  method Stand(fs: FatFs, fp: Fil, p: nat, clst: nat, ghost i: nat)
    requires Live(fs, fp)
    modifies fp`fptr, fp`clust, fp`ci
    ensures Live(fs, fp) && Now(fs, fp) == old(Now(fs, fp)).(st := old(Now(fs, fp)).st.(fptr := p, clust := clst, ci := i))
    ensures fp.fptr == p && fp.clust == clst
  {
    fp.fptr := p;
    fp.clust := clst;
    fp.ci := i;
  }

  /** Give the file its first cluster. */
  method EnterFirst(fs: FatFs, fp: Fil, clst: nat)
    requires Live(fs, fp)
    modifies fp`sclust
    ensures Live(fs, fp) && Now(fs, fp) == old(Now(fs, fp)).(st := old(Now(fs, fp)).st.(sclust := clst))
  {
    fp.sclust := clst;
  }

  lemma BcsPositive(y: Layout)
    requires 0 < y.csize
    ensures 0 < Bcs(y)
  {
  }

  /** What is known of a file that has no cluster, and after one was asked for. */
  lemma FirstFacts(y: Layout, s: Snap, t: Snap, r: nat, eoc: nat)
    requires Ok(y, s) && Stretch(s.f, s.ch, t.f, 0, r, false, eoc) && t.st == s.st && t.ch == GrownBy(s.ch, r, false)
    ensures s.st.sclust == (if s.ch == [] then 0 else s.ch[0]) && (s.ch != [] ==> s.st.sclust >= 2)
    ensures s.ch == [] && r != 0 ==> t == Snap(t.d, t.f, [r], s.st)
    ensures s.ch == [] && r == 0 ==> t == s.(d := t.d) && NoneFree(s.f)
  {
  }

  lemma StartFacts(y: Layout, s: Snap)
    requires Ok(y, s)
    ensures s.st.sclust == (if s.ch == [] then 0 else s.ch[0]) && (s.st.sclust == 0 <==> s.ch == [])
  {
  }

  /** Allocate the first cluster of a file that has none; 0 when the disk is full. */
  method SeekNew(fs: FatFs, fp: Fil, ofs: nat) returns (clst: nat)
    requires Live(fs, fp) && Tidy(fs) && Ok(fs.y, Now(fs, fp)) && Now(fs, fp).ch == [] && 0 < ofs
    modifies fs`wflag, fs`disk, fs`winsect, fs`winClust, fs`lastClst, fs`freeClst, fs`fsiDirty, fs`chains, fs.win
    modifies fp`fptr, fp`clust, fp`ci, fp`sclust
    ensures Live(fs, fp) && Tidy(fs) && fs.chains == old(fs.chains)[fp.me := Now(fs, fp).ch]
    ensures if clst == 0 then
              && Reached(fs.y, old(Now(fs, fp)), Now(fs, fp), ofs) && fp.fptr == 0
              && Allotted(fs.y, old(Now(fs, fp)), old(fs.lastClst), Now(fs, fp), fs.lastClst, ofs)
            else
              && clst > 1 && Seeking(fs.y, old(Now(fs, fp)), Now(fs, fp), ofs, ofs)
              && OnSupply(fs.y, old(Now(fs, fp)), old(fs.lastClst), Now(fs, fp), fs.lastClst, ofs)
  {
    hide *;
    ghost var s, last := Now(fs, fp), fs.lastClst;
    Fields(fs, fp);
    TidyFacts(fs, fp);
    TidySane(fs, fp);
    BcsPositive(fs.y);
    clst := Allocate(fs, fp, 0, false);
    ghost var t := Now(fs, fp);
    FirstFacts(fs.y, s, t, clst, Eoc(fs.y));
    SupplyFirst(fs.y, s, last, t, clst, fs.lastClst, ofs);
    if clst == 0 {
      SeekStaysEmpty(fs.y, s, t.d, ofs);
      EmptyStart(fs.y, s);
      Stand(fs, fp, 0, 0, 0);
      AllottedSame(fs.y, s, last, t, fs.lastClst, Now(fs, fp), ofs);
    } else {
      FromNew(fs.y, s, t.d, t.f, clst, ofs, Eoc(fs.y));
      EnterFirst(fs, fp, clst);
      Stand(fs, fp, 0, clst, 0);
      SupplySame(fs.y, s, last, t, fs.lastClst, Now(fs, fp), ofs);
    }
  }

  lemma TidySane(fs: FatFs, fp: Fil)
    requires Live(fs, fp) && Tidy(fs)
    ensures Sane(Now(fs, fp).f)
  {
  }

  lemma AllottedSame(y: Layout, s: Snap, last: nat, t: Snap, now: nat, u: Snap, p: nat)
    requires Allotted(y, s, last, t, now, p) && u.f == t.f && u.ch == t.ch
    ensures Allotted(y, s, last, u, now, p)
  {
  }

  lemma CurrentThere(y: Layout, s: Snap)
    requires Ok(y, s) && 0 < s.st.fptr
    ensures s.st.clust >= 2
  {
  }

  lemma EmptyStart(y: Layout, s: Snap)
    requires Ok(y, s) && s.ch == []
    ensures s.st.sclust == 0
  {
  }

  /** Where to start from: the current cluster, the first one for a target in front of it, or one that
      is allocated; 0 when there is none. */
  method SeekStart(fs: FatFs, fp: Fil, ofs: nat) returns (clst: nat, rest: nat)
    requires Live(fs, fp) && Tidy(fs) && Ok(fs.y, Now(fs, fp)) && 0 < ofs
    modifies fs`wflag, fs`disk, fs`winsect, fs`winClust, fs`lastClst, fs`freeClst, fs`fsiDirty, fs`chains, fs.win
    modifies fp`fptr, fp`clust, fp`ci, fp`sclust
    ensures Live(fs, fp) && Tidy(fs) && fs.chains == old(fs.chains)[fp.me := Now(fs, fp).ch]
    ensures if clst == 0 then
              && Reached(fs.y, old(Now(fs, fp)), Now(fs, fp), ofs) && fp.fptr == 0
              && Allotted(fs.y, old(Now(fs, fp)), old(fs.lastClst), Now(fs, fp), fs.lastClst, ofs)
            else
              && clst > 1 && Seeking(fs.y, old(Now(fs, fp)), Now(fs, fp), ofs, rest)
              && OnSupply(fs.y, old(Now(fs, fp)), old(fs.lastClst), Now(fs, fp), fs.lastClst, ofs)
  {
    hide *;
    ghost var s, last := Now(fs, fp), fs.lastClst;
    Fields(fs, fp);
    var bcs := Bcs(fs.y);
    BcsPositive(fs.y);
    StartFacts(fs.y, s);
    SamePlace(fs.chains, fp.me);
    if fp.fptr > 0 && (ofs - 1) / bcs >= (fp.fptr - 1) / bcs {
      var base := fp.fptr - 1 - (fp.fptr - 1) % bcs;
      FromCurrent(fs.y, s, ofs);
      CurrentThere(fs.y, s);
      Stand(fs, fp, base, fp.clust, fp.ci);
      clst, rest := fp.clust, ofs - base;
      SupplyHere(fs.y, s, last, Now(fs, fp), ofs);
    } else if fp.sclust == 0 {
      clst := SeekNew(fs, fp, ofs);
      rest := ofs;
    } else {
      FromStart(fs.y, s, ofs);
      Stand(fs, fp, 0, fp.sclust, 0);
      clst, rest := fp.sclust, ofs;
      SupplyHere(fs.y, s, last, Now(fs, fp), ofs);
    }
  }

  lemma SupplyHere(y: Layout, s: Snap, last: nat, t: Snap, p: nat)
    requires t.f == s.f && t.ch == s.ch
    ensures OnSupply(y, s, last, t, last, p)
  {
  }

  /** What following a link the way a reader does is as a stretch. */
  lemma FollowedIs(s: Snap, t: Snap, clst: nat, r: nat, eoc: nat)
    requires clst < |s.f| && r == s.f[clst] && t == s.(d := t.d)
    ensures Stretch(s.f, s.ch, t.f, clst, r, true, eoc) && t.st == s.st && t.ch == GrownBy(s.ch, r, true)
  {
  }

  lemma NoneHanded(f: Fat, last: nat, clst: nat, r: nat)
    ensures Hands(f, last, clst, r, true, last)
  {
  }

  /** The cluster behind the current one, asked for the way the access mode does it: a writer stretches
      the chain where it ends. */
  method NextForSeek(fs: FatFs, fp: Fil, clst: nat, ghost has: bool) returns (next: nat)
    requires Live(fs, fp) && Tidy(fs) && 2 <= clst < |Now(fs, fp).f| && (!has ==> fp.canWrite)
    requires has ==> 2 <= Now(fs, fp).f[clst] < |Now(fs, fp).f|
    requires !has ==> clst == if Now(fs, fp).ch == [] then 0 else Now(fs, fp).ch[|Now(fs, fp).ch| - 1]
    modifies fs`wflag, fs`disk, fs`winsect, fs`winClust, fs`lastClst, fs`freeClst, fs`fsiDirty, fs`chains, fs.win
    ensures Live(fs, fp) && Tidy(fs) && fs.chains == old(fs.chains)[fp.me := Now(fs, fp).ch]
    ensures Sectored(Now(fs, fp).d) && SameButFat(old(Now(fs, fp)).d, Now(fs, fp).d, fs.y)
    ensures Now(fs, fp).st == old(Now(fs, fp)).st && Now(fs, fp).ch == GrownBy(old(Now(fs, fp)).ch, next, has)
    ensures Stretch(old(Now(fs, fp)).f, old(Now(fs, fp)).ch, Now(fs, fp).f, clst, next, has, Eoc(fs.y))
    ensures next == 0 ==> fp.canWrite
    ensures Hands(old(Now(fs, fp)).f, old(fs.lastClst), clst, next, has, fs.lastClst)
  {
    hide *;
    ghost var s := Now(fs, fp);
    TidyFacts(fs, fp);
    Fields(fs, fp);
    if fp.canWrite {
      next := Allocate(fs, fp, clst, has);
    } else {
      next := GetFatFor(fs, fp, clst);
      TidyAgain(fs, fp, s.f);
      FollowedIs(s, Now(fs, fp), clst, next, Eoc(fs.y));
      NoneHanded(s.f, fs.lastClst, clst, next);
      SamePlace(fs.chains, fp.me);
    }
  }

  /** What the loop over the clusters leads to: nothing left to go on a full disk, or less than a
      cluster. */
  ghost predicate OnTheWay(y: Layout, s: Snap, last: nat, t: Snap, now: nat, ofs: nat, rest: nat) {
    if rest == 0 then Stopped(y, s, t, ofs) && Allotted(y, s, last, t, now, ofs)
    else Seeking(y, s, t, ofs, rest) && OnSupply(y, s, last, t, now, ofs)
  }

  lemma OnTheWayIs(y: Layout, s: Snap, last: nat, t: Snap, now: nat, ofs: nat, rest: nat)
    ensures OnTheWay(y, s, last, t, now, ofs, rest) <==>
            if rest == 0 then Stopped(y, s, t, ofs) && Allotted(y, s, last, t, now, ofs)
            else Seeking(y, s, t, ofs, rest) && OnSupply(y, s, last, t, now, ofs)
  {
  }

  lemma SoughtNext(u: Snap, p: nat, clst: nat, i: nat)
    requires i < |u.ch| && clst == u.ch[i]
    ensures SoughtTo(u, p, i) == u.(st := u.st.(fptr := p, clust := clst, ci := i))
  {
  }

  /** Follow the chain, and stretch it, until the target lies in the current cluster. */
  method SeekFollow(fs: FatFs, fp: Fil, first: nat, ghost s: Snap, ghost last: nat, ghost ofs: nat) returns (rest: nat, res: FResult)
    requires Live(fs, fp) && Tidy(fs) && Seeking(fs.y, s, Now(fs, fp), ofs, first) && (s.st.objsize < ofs ==> fp.canWrite)
    requires OnSupply(fs.y, s, last, Now(fs, fp), fs.lastClst, ofs)
    modifies fs`wflag, fs`disk, fs`winsect, fs`winClust, fs`lastClst, fs`freeClst, fs`fsiDirty, fs`chains, fs.win
    modifies fp`fptr, fp`clust, fp`ci
    ensures Live(fs, fp) && Tidy(fs) && fs.chains == old(fs.chains)[fp.me := Now(fs, fp).ch] && res == FrOk
    ensures OnTheWay(fs.y, s, last, Now(fs, fp), fs.lastClst, ofs, rest) && rest <= Bcs(fs.y)
  {
    hide *;
    rest, res := first, FrOk;
    Fields(fs, fp);
    var bcs := Bcs(fs.y);
    BcsPositive(fs.y);
    SamePlace(fs.chains, fp.me);
    SeekingRest(fs.y, s, Now(fs, fp), ofs, first);
    OnTheWayIs(fs.y, s, last, Now(fs, fp), fs.lastClst, ofs, rest);
    while rest > bcs && res == FrOk
      invariant Live(fs, fp) && Tidy(fs) && fs.chains == old(fs.chains)[fp.me := Now(fs, fp).ch] && res == FrOk
      invariant OnTheWay(fs.y, s, last, Now(fs, fp), fs.lastClst, ofs, rest)
      decreases rest
    {
      ghost var t, c, now := Now(fs, fp), fs.chains, fs.lastClst;
      Fields(fs, fp);
      TidyFacts(fs, fp);
      TidySane(fs, fp);
      OnTheWayIs(fs.y, s, last, t, now, ofs, rest);
      SeekAsk(fs.y, s, t, ofs, rest);
      ghost var has := t.st.ci + 1 < |t.ch|;
      var clst := NextForSeek(fs, fp, fp.clust, has);
      ghost var u := Now(fs, fp);
      UpdateTwice(old(fs.chains), c, fs.chains, fp.me, t.ch, u.ch);
      SupplyStep(fs.y, s, last, t, now, u, clst, fs.lastClst, ofs, rest);
      if fp.canWrite && clst == 0 {
        SeekStops(fs.y, s, t, u.d, u.f, ofs, rest, Eoc(fs.y));
        SnapIs(u);
        Stand(fs, fp, fp.fptr + bcs, fp.clust, fp.ci);
        AllottedSame(fs.y, s, last, u, fs.lastClst, Now(fs, fp), ofs);
        rest := 0;
      } else {
        SeekStep(fs.y, s, t, u.d, u.f, clst, ofs, rest, Eoc(fs.y));
        SnapIs(u);
        if clst <= 1 || clst >= fs.y.nFatent {
          res := FrIntErr;
        } else {
          SoughtNext(u, fp.fptr + bcs, clst, fp.ci + 1);
          Stand(fs, fp, fp.fptr + bcs, clst, fp.ci + 1);
          SupplySame(fs.y, s, last, u, fs.lastClst, Now(fs, fp), ofs);
          rest := rest - bcs;
        }
      }
      OnTheWayIs(fs.y, s, last, Now(fs, fp), fs.lastClst, ofs, rest);
    }
  }

  lemma SnapIs(u: Snap)
    ensures u == Snap(u.d, u.f, u.ch, u.st)
  {
  }

  lemma SeekingRest(y: Layout, s: Snap, t: Snap, ofs: nat, rest: nat)
    requires Seeking(y, s, t, ofs, rest)
    ensures rest > 0
  {
  }

  /** Land on the target inside the current cluster; `nsect` is its sector if it lies within one. */
  method SeekLand(fs: FatFs, fp: Fil, rest: nat, ghost s: Snap, ghost last: nat, ghost ofs: nat) returns (nsect: nat)
    requires Live(fs, fp) && OnTheWay(fs.y, s, last, Now(fs, fp), fs.lastClst, ofs, rest) && rest <= Bcs(fs.y)
    modifies fp`fptr, fp`clust, fp`ci
    ensures Live(fs, fp) && Now(fs, fp).f == old(Now(fs, fp)).f && Now(fs, fp).ch == old(Now(fs, fp)).ch
    ensures Reached(fs.y, s, Now(fs, fp), ofs) && Allotted(fs.y, s, last, Now(fs, fp), fs.lastClst, ofs)
    ensures fp.fptr % SS != 0 ==>
              fp.fptr / SS < |Sects(fs.y, Now(fs, fp).ch)| && Sects(fs.y, Now(fs, fp).ch)[fp.fptr / SS] == nsect
  {
    hide *;
    ghost var t := Now(fs, fp);
    Fields(fs, fp);
    SectorSize();
    OnTheWayIs(fs.y, s, last, t, fs.lastClst, ofs, rest);
    nsect := 0;
    if rest == 0 {
      SeekEndsFull(fs.y, s, t, ofs);
      SameStand(t);
    } else {
      SeekLands(fs.y, s, t, ofs, rest);
      SupplyDone(fs.y, s, last, t, fs.lastClst, ofs, rest);
    }
    Stand(fs, fp, fp.fptr + rest, fp.clust, fp.ci);
    AllottedSame(fs.y, s, last, t, fs.lastClst, Now(fs, fp), ofs);
    if rest % SS != 0 {
      nsect := Clst2Sect(fs.y, fp.clust) + rest / SS;
    }
  }

  lemma SameStand(t: Snap)
    ensures t.(st := t.st.(fptr := t.st.fptr, clust := t.st.clust, ci := t.st.ci)) == t
  {
  }

  /** Raise the size to the file pointer. */
  method Enlarge(fs: FatFs, fp: Fil)
    requires Live(fs, fp) && fp.fptr <= 0xFFFF_FFFF
    modifies fp`objsize, fp`modified
    ensures Live(fs, fp) && Now(fs, fp) == Sized(old(Now(fs, fp)))
  {
    if fp.fptr > fp.objsize {
      fp.objsize := fp.fptr;
      fp.modified := true;
    }
  }

  /** In the middle of a sector show it in the buffer. */
  method SeekFill(fs: FatFs, fp: Fil, nsect: nat)
    requires Live(fs, fp) && (fp.dirty ==> Core(fs.y, Now(fs, fp)))
    requires fp.fptr % SS != 0 ==> nsect < |fs.disk| && nsect != fs.winsect
    modifies fs`disk, fp`dirty, fp`sect, fp.buf
    ensures Live(fs, fp) && Now(fs, fp) == Filled(old(Now(fs, fp)), nsect)
  {
    hide *;
    ghost var s := Now(fs, fp);
    Fields(fs, fp);
    SectorSize();
    FilledIs(s, nsect);
    if fp.fptr % SS != 0 && nsect != fp.sect {
      if fp.dirty {
        FlushBuf(fs, fp);
      } else {
        CleanFlushed(s);
      }
      Fields(fs, fp);
      FillBuf(fs, fp, nsect);
    }
  }

  lemma FilledIs(t: Snap, sect: nat)
    ensures Filled(t, sect) == if t.st.fptr % SS != 0 && sect != t.st.cache.sect then Loaded(Flushed(t), sect) else t
    ensures |Flushed(t).d| == |t.d|
  {
  }

  lemma CleanFlushed(s: Snap)
    requires !s.st.cache.dirty
    ensures Flushed(s) == s
  {
  }

  lemma SectHere(fs: FatFs, fp: Fil, k: nat)
    requires Live(fs, fp) && Core(fs.y, Home(Now(fs, fp))) && k < |Sects(fs.y, Now(fs, fp).ch)|
    ensures fs.y.database <= Sects(fs.y, Now(fs, fp).ch)[k] < |fs.disk| == |Now(fs, fp).d|
    ensures Sects(fs.y, Now(fs, fp).ch)[k] != fs.winsect
  {
    var s := Now(fs, fp);
    SectInData(fs.y, |fs.disk|, s.f, s.ch, k);
    WindowElsewhere(fs, s.ch, k);
  }

  lemma ReachedFacts(y: Layout, s: Snap, t: Snap, ofs: nat)
    requires Reached(y, s, t, ofs)
    ensures Core(y, Home(t)) && t.st.fptr <= ofs && t.st.objsize == s.st.objsize && t.st.cache == s.st.cache
    ensures ofs <= s.st.objsize ==> t.ch == s.ch && t.f == s.f
  {
  }

  /** A dirty buffer holds bytes of the file, however large that becomes. */
  lemma DirtyCore(y: Layout, s: Snap, t: Snap, ofs: nat)
    requires Core(y, s) && Reached(y, s, t, ofs)
    ensures t.st.cache.dirty ==> Core(y, Sized(t))
  {
    SectsLen(y, t.ch);
    BcsIndex(y, |t.ch|);
    hide IsFile, Layout.Sound, AtCluster;
    var z := Sized(t);
    if t.st.cache.dirty {
      var q := Sects(y, t.ch);
      var k :| 0 <= k < |q| && k * SS < t.st.objsize && q[k] == t.st.cache.sect;
      assert k * SS < z.st.objsize;
      assert CacheOk(z.d, q, z.st.cache, z.st.objsize);
    }
  }

  /** Set the size if the pointer went behind the end, and fill the buffer if it stands inside a
      sector. */
  method SeekEnd(fs: FatFs, fp: Fil, nsect: nat, ghost s: Snap, ghost last: nat, ghost ofs: nat)
    requires Live(fs, fp) && Tidy(fs) && Core(fs.y, s) && Reached(fs.y, s, Now(fs, fp), ofs) && ofs <= 0xFFFF_FFFF
    requires Allotted(fs.y, s, last, Now(fs, fp), fs.lastClst, ofs)
    requires fp.fptr % SS != 0 ==>
               fp.fptr / SS < |Sects(fs.y, Now(fs, fp).ch)| && Sects(fs.y, Now(fs, fp).ch)[fp.fptr / SS] == nsect
    modifies fs`disk, fp`dirty, fp`sect, fp`objsize, fp`modified, fp.buf
    ensures Live(fs, fp) && Tidy(fs) && Now(fs, fp).ch == old(Now(fs, fp)).ch
    ensures if ofs <= s.st.objsize then SeekDone(fs.y, s, Now(fs, fp), ofs) else SeekGrown(fs.y, s, last, Now(fs, fp), fs.lastClst, ofs)
  {
    hide *;
    ghost var t := Now(fs, fp);
    SectorSize();
    Fields(fs, fp);
    TidyFacts(fs, fp);
    ReachedFacts(fs.y, s, t, ofs);
    DirtyCore(fs.y, s, t, ofs);
    if fp.fptr % SS != 0 {
      SectHere(fs, fp, fp.fptr / SS);
    }
    SizedShrunk(t);
    FilledSame(fs.y, s, t, ofs, nsect);
    if ofs <= s.st.objsize {
      SeekWithin(fs.y, s, t, ofs, nsect);
    } else {
      SeekBeyond(fs.y, s, last, t, fs.lastClst, ofs, nsect);
    }
    Enlarge(fs, fp);
    Fields(fs, fp);
    SeekFill(fs, fp, nsect);
    TidyAgain(fs, fp, t.f);
  }

  lemma ChainKept(y: Layout, s: Snap, t: Snap, p: nat)
    requires SeekDone(y, s, t, p)
    ensures t.ch == s.ch
  {
  }

  /** Put the file pointer to `ofs`, a byte of the file or its end.  A file that cannot be written is not
      left behind its end; one that can is extended, as far as there are clusters. */
  method FLseek(fs: FatFs, fp: Fil, target: nat) returns (res: FResult)
    requires Live(fs, fp) && Tidy(fs) && Ok(fs.y, Now(fs, fp)) && target <= 0xFFFF_FFFF
    modifies fs`wflag, fs`disk, fs`winsect, fs`winClust, fs`lastClst, fs`freeClst, fs`fsiDirty, fs`chains, fs.win
    modifies fp`fptr, fp`clust, fp`ci, fp`sclust, fp`objsize, fp`modified, fp`dirty, fp`sect, fp.buf
    ensures Live(fs, fp) && Tidy(fs) && fs.chains == old(fs.chains)[fp.me := Now(fs, fp).ch] && res == FrOk
    ensures target <= old(fp.objsize) ==> SeekDone(fs.y, old(Now(fs, fp)), Now(fs, fp), target)
    ensures target > old(fp.objsize) && !fp.canWrite ==> SeekDone(fs.y, old(Now(fs, fp)), Now(fs, fp), old(fp.objsize))
    ensures target > old(fp.objsize) && fp.canWrite ==> SeekGrown(fs.y, old(Now(fs, fp)), old(fs.lastClst), Now(fs, fp), fs.lastClst, target)
    ensures target <= old(fp.objsize) || !fp.canWrite ==> fs.chains == old(fs.chains)
  {
    hide *;
    ghost var s, last := Now(fs, fp), fs.lastClst;
    Fields(fs, fp);
    SectorSize();
    OkCore(fs.y, s);
    SamePlace(fs.chains, fp.me);
    SupplyNone(fs.y, s, last);
    var ofs := if target > fp.objsize && !fp.canWrite then fp.objsize else target;
    res := FrOk;
    var nsect := 0;
    if ofs > 0 {
      var clst, rest := SeekStart(fs, fp, ofs);
      if clst != 0 {
        ghost var t, c := Now(fs, fp), fs.chains;
        Fields(fs, fp);
        rest, res := SeekFollow(fs, fp, rest, s, last, ofs);
        UpdateTwice(old(fs.chains), c, fs.chains, fp.me, t.ch, Now(fs, fp).ch);
        nsect := SeekLand(fs, fp, rest, s, last, ofs);
      }
    } else {
      SeekToStart(fs.y, s);
      Stand(fs, fp, 0, fp.clust, fp.ci);
      SameClust(s);
      AllottedSame(fs.y, s, last, s, last, Now(fs, fp), 0);
    }
    SeekEnd(fs, fp, nsect, s, last, ofs);
    if ofs <= s.st.objsize {
      ChainKept(fs.y, s, Now(fs, fp), ofs);
    }
  }

  lemma SameClust(s: Snap)
    ensures s.(st := s.st.(fptr := 0, clust := s.st.clust, ci := s.st.ci)) == s.(st := s.st.(fptr := 0))
  {
  }

  // ---------- truncating ----------

  lemma CutFacts(fs: FatFs, fp: Fil)
    requires Live(fs, fp) && Tidy(fs) && Ok(fs.y, Now(fs, fp)) && fp.fptr < fp.objsize
    ensures var s, eoc := Now(fs, fp), Eoc(fs.y);
            && Kept(s) <= |s.ch| && s.ch != [] && s.st.sclust == s.ch[0]
            && (Kept(s) < |s.ch| ==> 2 <= s.ch[Kept(s)] < |s.f|)
            && (s.st.fptr == 0 ==> Kept(s) == 0 && Removed(s.f, s.ch[0]) == Removal(CutTable(s, eoc), true))
            && (s.st.fptr > 0 ==> 2 <= s.st.clust < |s.f| && s.f[s.st.clust] != 0 && s.f[s.st.clust] != 1)
            && (s.st.fptr > 0 && Kept(s) == |s.ch| ==> s.f[s.st.clust] >= |s.f| && CutTable(s, eoc) == s.f)
            && (s.st.fptr > 0 && Kept(s) < |s.ch| ==> s.f[s.st.clust] == s.ch[Kept(s)])
            && (s.st.fptr > 0 && Kept(s) < |s.ch| ==>
                  Removed(s.f[s.st.clust := eoc], s.ch[Kept(s)]) == Removal(CutTable(s, eoc), true))
  {
    var s := Now(fs, fp);
    TidyFacts(fs, fp);
    KeptFits(fs.y, s);
    if Kept(s) < |s.ch| {
      CutIsRemoval(fs.y, s, fs.chains, fp.me, Eoc(fs.y));
    }
  }

  /** Remove clusters while file `fp` is open. */
  method RemoveFor(fs: FatFs, fp: Fil, clst: nat, pclst: nat) returns (res: FResult)
    requires Live(fs, fp) && 2 <= clst < |Now(fs, fp).f| && (pclst == 0 || 2 <= pclst < |Now(fs, fp).f|)
    requires pclst != 0 ==> Now(fs, fp).f[pclst] != 0
    requires CountsFree(fs.freeClst, Now(fs, fp).f)
    modifies fs`wflag, fs`disk, fs`winsect, fs`winClust, fs`freeClst, fs`fsiDirty, fs.win
    ensures Live(fs, fp) && CountsFree(fs.freeClst, Now(fs, fp).f)
    ensures Now(fs, fp) == old(Now(fs, fp)).(d := Now(fs, fp).d, f := Now(fs, fp).f)
    ensures Sectored(Now(fs, fp).d) && SameButFat(old(Now(fs, fp)).d, Now(fs, fp).d, fs.y)
    ensures var f := old(Now(fs, fp)).f;
            Removal(Now(fs, fp).f, res == FrOk) == Removed(if pclst != 0 then f[pclst := Eoc(fs.y)] else f, clst)
  {
    res := RemoveChain(fs, clst, pclst);
  }

  method ClearStart(fs: FatFs, fp: Fil)
    requires Live(fs, fp)
    modifies fp`sclust
    ensures Live(fs, fp) && Now(fs, fp) == old(Now(fs, fp)).(st := old(Now(fs, fp)).st.(sclust := 0))
  {
    fp.sclust := 0;
  }

  /** Remove the clusters behind the file pointer. */
  method DropClusters(fs: FatFs, fp: Fil) returns (res: FResult)
    requires Live(fs, fp) && Tidy(fs) && Ok(fs.y, Now(fs, fp)) && fp.fptr < fp.objsize
    modifies fs`wflag, fs`disk, fs`winsect, fs`winClust, fs`freeClst, fs`fsiDirty, fs.win, fp`sclust
    ensures Live(fs, fp) && res == FrOk && CountsFree(fs.freeClst, Now(fs, fp).f)
    ensures Sectored(Now(fs, fp).d) && SameButFat(old(Now(fs, fp)).d, Now(fs, fp).d, fs.y)
    ensures Now(fs, fp).f == CutTable(old(Now(fs, fp)), Eoc(fs.y))
    ensures Now(fs, fp) == old(Now(fs, fp)).(d := Now(fs, fp).d, f := Now(fs, fp).f,
                             st := old(Now(fs, fp)).st.(sclust := if old(fp.fptr) == 0 then 0 else old(fp.sclust)))
  {
    hide *;
    ghost var s := Now(fs, fp);
    Fields(fs, fp);
    TidyFacts(fs, fp);
    CutFacts(fs, fp);
    if fp.fptr == 0 {
      res := RemoveFor(fs, fp, fp.sclust, 0);
      ClearStart(fs, fp);
    } else {
      var ncl := GetFatFor(fs, fp, fp.clust);
      ghost var d := Now(fs, fp).d;
      res := if ncl == 1 then FrIntErr else FrOk;
      if res == FrOk && ncl < fs.y.nFatent {
        res := RemoveFor(fs, fp, ncl, fp.clust);
        SameButFatTwice(s.d, d, Now(fs, fp).d, fs.y);
      }
    }
  }

  lemma SameButFatTwice(d: Disk, e: Disk, g: Disk, y: Layout)
    requires SameButFat(d, e, y) && SameButFat(e, g, y)
    ensures SameButFat(d, g, y)
  {
  }

  /** Set the size to the file pointer. */
  method SetSize(fs: FatFs, fp: Fil)
    requires Live(fs, fp) && fp.fptr <= fp.objsize
    modifies fp`objsize, fp`modified
    ensures Live(fs, fp) && Now(fs, fp) == old(Now(fs, fp)).(st := old(Now(fs, fp)).st.(objsize := old(fp.fptr)))
  {
    fp.objsize := fp.fptr;
    fp.modified := true;
  }

  /** Write a dirty buffer back although its sector may be one of those just removed. */
  method FlushCut(fs: FatFs, fp: Fil)
    requires Live(fs, fp) && (fp.dirty ==> fs.y.database <= fp.sect < |fs.disk| && fp.sect != fs.winsect)
    modifies fs`disk, fp`dirty
    ensures Live(fs, fp) && Now(fs, fp) == Flushed(old(Now(fs, fp))) && fs.Fat() == old(fs.Fat())
  {
    if fp.dirty {
      WriteSector(fs, fp.sect, fp.buf[..]);
      fp.dirty := false;
    }
  }

  lemma DirtyInChain(fs: FatFs, fp: Fil)
    requires Live(fs, fp) && Core(fs.y, Now(fs, fp))
    ensures AllClusters(Now(fs, fp).ch) && NotDirs(Now(fs, fp).ch, fs.dirs)
    ensures fp.dirty ==> fp.sect in Sects(fs.y, Now(fs, fp).ch) && fs.y.database <= fp.sect < |Now(fs, fp).d|
  {
    FlushedSame(fs.y, Now(fs, fp));
  }

  lemma StillElsewhere(fs: FatFs, fp: Fil, ch: seq<nat>)
    requires Live(fs, fp) && AllClusters(ch) && NotDirs(ch, fs.dirs)
    requires fp.dirty ==> fp.sect in Sects(fs.y, ch) && fs.y.database <= fp.sect < |Now(fs, fp).d|
    ensures fp.dirty ==> fs.y.database <= fp.sect < |fs.disk| && fp.sect != fs.winsect
  {
    if fp.dirty {
      var k :| 0 <= k < |Sects(fs.y, ch)| && Sects(fs.y, ch)[k] == fp.sect;
      WindowElsewhere(fs, ch, k);
    }
  }

  lemma SizeOf(d: Disk, e: Disk, y: Layout)
    requires SameButFat(d, e, y)
    ensures |e| == |d|
  {
  }

  lemma CutSnap(s: Snap, d: Disk, g: Fat, k: nat)
    requires k <= |s.ch|
    ensures s.(d := d, f := g, st := s.st.(sclust := if s.st.fptr == 0 then 0 else s.st.sclust))
            .(ch := s.ch[..k])
            .(st := s.st.(sclust := if s.st.fptr == 0 then 0 else s.st.sclust).(objsize := s.st.fptr))
         == Snap(d, g, s.ch[..k], CutFields(s.st))
  {
  }

  lemma FlushedTable(s: Snap)
    ensures Flushed(s).f == s.f && Flushed(s).ch == s.ch
  {
  }

  /** Cut the file at the file pointer, behind which it ends in the table and in its size. */
  method CutHere(fs: FatFs, fp: Fil) returns (res: FResult)
    requires Live(fs, fp) && Tidy(fs) && Ok(fs.y, Now(fs, fp)) && fp.fptr < fp.objsize
    modifies fs`wflag, fs`disk, fs`winsect, fs`winClust, fs`freeClst, fs`fsiDirty, fs`chains, fs.win
    modifies fp`sclust, fp`objsize, fp`modified, fp`dirty
    ensures Live(fs, fp) && Tidy(fs) && res == FrOk && fs.chains == old(fs.chains)[fp.me := Now(fs, fp).ch]
    ensures TruncateDone(fs.y, old(Now(fs, fp)), Now(fs, fp))
  {
    hide *;
    ghost var s := Now(fs, fp);
    ghost var free, chains, eoc := fs.freeClst, fs.chains, Eoc(fs.y);
    Fields(fs, fp);
    OkCore(fs.y, s);
    DirtyInChain(fs, fp);
    TidyFacts(fs, fp);
    res := DropClusters(fs, fp);
    ghost var d, g := Now(fs, fp).d, Now(fs, fp).f;
    SizeOf(s.d, d, fs.y);
    CutsTable(fs.y, s, chains, fp.me, free, fs.freeClst, fs.dirs, eoc);
    StillElsewhere(fs, fp, s.ch);
    Regroup(fs, fp, s.ch[..Kept(s)]);
    Fields(fs, fp);
    SetSize(fs, fp);
    CutSnap(s, d, g, Kept(s));
    CutThenFlush(fs.y, s, d, g);
    ghost var t := Now(fs, fp);
    assert t == Snap(d, g, s.ch[..Kept(s)], CutFields(s.st));
    FlushedTable(t);
    if res == FrOk {
      FlushCut(fs, fp);
    }
    TidyAgain(fs, fp, g);
  }

  /** Cut the file at the file pointer. */
  method FTruncate(fs: FatFs, fp: Fil) returns (res: FResult)
    requires Live(fs, fp) && Tidy(fs) && Ok(fs.y, Now(fs, fp))
    modifies fs`wflag, fs`disk, fs`winsect, fs`winClust, fs`freeClst, fs`fsiDirty, fs`chains, fs.win
    modifies fp`sclust, fp`objsize, fp`modified, fp`dirty
    ensures Live(fs, fp) && Tidy(fs) && fs.chains == old(fs.chains)[fp.me := Now(fs, fp).ch]
    ensures res == if fp.canWrite then FrOk else FrDenied
    ensures fp.canWrite ==> TruncateDone(fs.y, old(Now(fs, fp)), Now(fs, fp))
    ensures !fp.canWrite ==> Now(fs, fp) == old(Now(fs, fp))
  {
    hide *;
    ghost var s := Now(fs, fp);
    Fields(fs, fp);
    SamePlace(fs.chains, fp.me);
    res := if fp.canWrite then FrOk else FrDenied;
    if fp.canWrite {
      if fp.fptr < fp.objsize {
        res := CutHere(fs, fp);
      } else {
        NotCut(fs.y, s);
      }
    }
  }
}
