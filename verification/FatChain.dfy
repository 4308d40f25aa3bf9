/** Allocating and freeing clusters on a mounted volume. */
module FatChain {
  import opened Words
  import opened FatEntry
  import opened FatVolume
  import opened FatTable

  const DISK_ALL_ONES: nat := 0xFFFF_FFFF

  /** The end mark as it reads back from the table. */
  function Eoc(y: Layout): nat {
    Fit(y.t, DISK_ALL_ONES)
  }

  lemma EocEndsChains(y: Layout, sectors: nat)
    requires y.Sound(sectors)
    ensures Eoc(y) >= y.nFatent && Eoc(y) > 1
  {
  }

  /** All ones in the bits that count. */
  lemma EocIs(y: Layout)
    ensures Eoc(y) == match y.t case Fat12 => 0xFFF case Fat16 => 0xFFFF case Fat32 => 0xFFF_FFFF
  {
  }

  /** Free the clusters from `clst` on and make `pclst`, if any, the end of what is left. */
  method RemoveChain(fs: FatFs, clst: nat, pclst: nat) returns (res: FResult)
    requires fs.Valid()
    modifies fs`wflag, fs`disk, fs`winsect, fs`winClust, fs`freeClst, fs`fsiDirty, fs.win
    ensures fs.Valid() && SameButFat(old(fs.View()), fs.View(), fs.y) && |fs.disk| == old(|fs.disk|)
    ensures var f := old(fs.Fat());
            if !(2 <= clst < |f|) || (pclst != 0 && !(2 <= pclst < |f|)) then
              res == FrIntErr && fs.Fat() == f
            else
              var r := Removed(if pclst != 0 then f[pclst := Eoc(fs.y)] else f, clst);
              fs.Fat() == r.fat && (res == FrOk <==> r.ok)
    ensures fs.freeClst <= fs.y.nFatent - 2 <==> old(fs.freeClst) <= fs.y.nFatent - 2
    ensures CountsFree(old(fs.freeClst), old(fs.Fat())) && (pclst != 0 && 2 <= pclst < fs.y.nFatent ==> old(fs.Fat())[pclst] != 0) ==> CountsFree(fs.freeClst, fs.Fat())
  {
    if clst < 2 || clst >= fs.y.nFatent {
      return FrIntErr;
    }
    EocEndsChains(fs.y, |fs.disk|);
    if pclst != 0 {
      res := fs.PutFat(pclst, DISK_ALL_ONES);
      if res != FrOk {
        return;
      }
      if CountsFree(fs.freeClst, old(fs.Fat())) && old(fs.Fat())[pclst] != 0 {
        CountAfterLink(fs.freeClst, old(fs.Fat()), pclst, Eoc(fs.y));
      }
    }
    res := FreeFrom(fs, clst);
  }

  lemma RemovedStep(f: Fat, c: nat)
    requires 2 <= c < |f|
    ensures f[c] == 0 ==> Removed(f, c) == Removal(f, true)
    ensures f[c] == 1 ==> Removed(f, c) == Removal(f, false)
    ensures f[c] >= |f| && f[c] > 1 ==> Removed(f, c) == Removal(f[c := 0], true)
    ensures 1 < f[c] < |f| ==> Removed(f, c) == Removed(f[c := 0], f[c])
    ensures f[c] != 0 ==> Used(f[c := 0], |f|) < Used(f, |f|)
  {
    if f[c] != 0 {
      UsedDrops(f, c, |f|);
    }
  }

  lemma FatTwice(d: Disk, e: Disk, g: Disk, y: Layout)
    requires SameButFat(d, e, y) && (SameButFat(e, g, y) || SameButMirror(e, g, y))
    ensures SameButFat(d, g, y)
  {
  }

  lemma NothingYet(fs: FatFs)
    requires fs.Valid()
    ensures SameButFat(fs.View(), fs.View(), fs.y) && fs.y.nFatent > 2
  {
  }

  method FreeFrom(fs: FatFs, first: nat) returns (res: FResult)
    requires fs.Valid() && 2 <= first < fs.y.nFatent
    modifies fs`wflag, fs`disk, fs`winsect, fs`winClust, fs`freeClst, fs`fsiDirty, fs.win
    ensures fs.Valid() && SameButFat(old(fs.View()), fs.View(), fs.y) && |fs.disk| == old(|fs.disk|)
    ensures fs.Fat() == Removed(old(fs.Fat()), first).fat
    ensures res == FrOk <==> Removed(old(fs.Fat()), first).ok
    ensures fs.freeClst <= fs.y.nFatent - 2 <==> old(fs.freeClst) <= fs.y.nFatent - 2
    ensures CountsFree(old(fs.freeClst), old(fs.Fat())) ==> CountsFree(fs.freeClst, fs.Fat())
  {
    hide FatFs.Shape, FatFs.Mirrored, FatFs.View, FatFs.Fat, Removed, Used, SameButFat, SameButMirror, CountsFree;
    var clst := first;
    NothingYet(fs);
    ghost var d := fs.View();
    while true
      invariant fs.Valid() && SameButFat(d, fs.View(), fs.y) && |fs.disk| == old(|fs.disk|)
      invariant 2 <= clst < fs.y.nFatent
      invariant Removed(fs.Fat(), clst) == Removed(old(fs.Fat()), first)
      invariant fs.freeClst <= fs.y.nFatent - 2 <==> old(fs.freeClst) <= fs.y.nFatent - 2
      invariant CountsFree(old(fs.freeClst), old(fs.Fat())) ==> CountsFree(fs.freeClst, fs.Fat())
      decreases Used(fs.Fat(), fs.y.nFatent)
    {
      ghost var e := fs.View();
      RemovedStep(fs.Fat(), clst);
      var nxt := fs.GetFat(clst);
      FatTwice(d, e, fs.View(), fs.y);
      if nxt == 0 {
        break;
      }
      if nxt == 1 {
        return FrIntErr;
      }
      e := fs.View();
      ReleaseOne(fs, clst);
      FatTwice(d, e, fs.View(), fs.y);
      if nxt >= fs.y.nFatent {
        break;
      }
      clst := nxt;
    }
    res := FrOk;
  }

  /** Count a cluster that has just been freed. */
  method NoteFreed(fs: FatFs)
    modifies fs`freeClst, fs`fsiDirty
    ensures fs.freeClst == if old(fs.freeClst) < fs.y.nFatent - 2 then old(fs.freeClst) + 1 else old(fs.freeClst)
  {
    if fs.freeClst < fs.y.nFatent - 2 {
      fs.freeClst := fs.freeClst + 1;
      fs.fsiDirty := true;
    }
  }

  method ReleaseOne(fs: FatFs, clst: nat)
    requires fs.Valid() && 2 <= clst < fs.y.nFatent && fs.Fat()[clst] != 0
    modifies fs`wflag, fs`disk, fs`winsect, fs`winClust, fs`freeClst, fs`fsiDirty, fs.win
    ensures fs.Valid() && SameButFat(old(fs.View()), fs.View(), fs.y) && |fs.disk| == old(|fs.disk|)
    ensures fs.Fat() == old(fs.Fat())[clst := 0]
    ensures fs.freeClst <= fs.y.nFatent - 2 <==> old(fs.freeClst) <= fs.y.nFatent - 2
    ensures CountsFree(old(fs.freeClst), old(fs.Fat())) ==> CountsFree(fs.freeClst, fs.Fat())
  {
    ghost var f, k := fs.Fat(), fs.freeClst;
    if CountsFree(k, f) {
      CountAfterFree(k, f, clst);
    }
    var res := fs.PutFat(clst, 0);
    NoteFreed(fs);
  }

  /** The clusters behind `scl` that a scan standing at `ncl` has looked at. */
  predicate Passed(wrapped: bool, scl: nat, ncl: nat, n: nat, c: nat) {
    2 <= c < n && if wrapped then c > scl || c <= ncl else scl < c <= ncl
  }

  /** None of the clusters passed so far is free. */
  ghost predicate PassedUsed(f: Fat, wrapped: bool, scl: nat, ncl: nat) {
    forall c: nat :: Passed(wrapped, scl, ncl, |f|, c) ==> f[c] != 0
  }

  /** Where the scan stands: before the wrap-around behind `scl`, after it in front of `scl`. */
  predicate At(wrapped: bool, scl: nat, ncl: nat, n: nat) {
    1 <= scl < n && if wrapped then 2 <= ncl < scl else scl <= ncl < n
  }

  lemma PassOne(f: Fat, was: bool, scl: nat, ncl: nat, wrapped: bool, next: nat)
    requires At(was, scl, ncl, |f|) && PassedUsed(f, was, scl, ncl)
    requires if ncl + 1 < |f| then next == ncl + 1 && wrapped == was else next == 2 && wrapped
    requires 2 <= next < |f| && f[next] != 0
    ensures PassedUsed(f, wrapped, scl, next)
    ensures next == scl ==> NoneFree(f)
    ensures next != scl && next <= scl + |f| && (next == 2 && ncl + 1 >= |f| ==> 2 <= scl) ==> At(wrapped, scl, next, |f|)
  {
  }

  lemma PassedAll(f: Fat, was: bool, scl: nat, ncl: nat)
    requires At(was, scl, ncl, |f|) && PassedUsed(f, was, scl, ncl) && ncl + 1 >= |f| && scl < 2
    ensures NoneFree(f)
  {
    forall c | 2 <= c < |f|
      ensures f[c] != 0
    {
      assert Passed(was, scl, ncl, |f|, c);
    }
  }

  /** A scan that finds nothing has met every cluster. */
  lemma {:induction false} ScanAll(f: Fat, wrapped: bool, scl: nat, ncl: nat)
    requires |f| > 2 && At(wrapped, scl, ncl, |f|) && PassedUsed(f, wrapped, scl, ncl) && Scan(f, scl, ncl) == 0
    ensures NoneFree(f)
    decreases if ncl >= scl then 2 * |f| - ncl else scl - ncl
  {
    if ncl + 1 >= |f| && 2 > scl {
      PassedAll(f, wrapped, scl, ncl);
    } else {
      var n := if ncl + 1 < |f| then ncl + 1 else 2;
      var w := wrapped || ncl + 1 >= |f|;
      PassOne(f, wrapped, scl, ncl, w, n);
      if n != scl {
        ScanAll(f, w, scl, n);
      }
    }
  }

  /** Nothing is handed out exactly on a full disk. */
  lemma PickedAll(f: Fat, last: nat, clst: nat)
    requires |f| > 2 && (clst == 0 || 2 <= clst < |f|) && Sane(f)
    ensures Picked(f, last, clst) == 0 <==> NoneFree(f)
  {
    PickedNone(f, last, clst);
    var scl := if clst == 0 then if 0 < last < |f| then last else 1 else if 2 <= last < |f| then last else clst;
    if Picked(f, last, clst) == 0 {
      ScanAll(f, false, scl, scl);
    }
  }

  lemma SizeOfTable(fs: FatFs)
    requires fs.Valid()
    ensures |fs.Fat()| == fs.y.nFatent > 2 && SameButFat(fs.View(), fs.View(), fs.y)
  {
  }

  /** Look for a free cluster behind `scl`, wrapping around at the end of the table.  No cluster
      is looked at twice. */
  method FindFree(fs: FatFs, scl: nat) returns (r: nat)
    requires fs.Valid() && 1 <= scl < fs.y.nFatent
    modifies fs`wflag, fs`disk, fs`winsect, fs`winClust, fs.win
    ensures fs.Valid() && SameButFat(old(fs.View()), fs.View(), fs.y) && |fs.disk| == old(|fs.disk|)
    ensures fs.Fat() == old(fs.Fat())
    ensures r == 0 ==> NoneFree(fs.Fat())
    ensures r == 1 ==> !Sane(fs.Fat())
    ensures r >= 2 ==> r < fs.y.nFatent && fs.Fat()[r] == 0
    ensures |fs.Fat()| > 2 && r == Scan(fs.Fat(), scl, scl)
  {
    hide FatFs.Shape, FatFs.Mirrored, FatFs.View, FatFs.Fat;
    SizeOfTable(fs);
    var ncl := scl;
    ghost var wrapped := false;
    ghost var f := fs.Fat();
    while true
      invariant fs.Valid() && SameButFat(old(fs.View()), fs.View(), fs.y) && |fs.disk| == old(|fs.disk|)
      invariant fs.Fat() == f
      invariant At(wrapped, scl, ncl, |f|) && PassedUsed(f, wrapped, scl, ncl)
      invariant Scan(f, scl, ncl) == Scan(f, scl, scl)
      decreases !wrapped, fs.y.nFatent - ncl
    {
      ghost var was, before := wrapped, ncl;
      ncl := ncl + 1;
      if ncl >= fs.y.nFatent {
        ncl := 2;
        wrapped := true;
        if ncl > scl {
          PassedAll(f, was, scl, before);
          return 0;
        }
      }
      assert !Passed(was, scl, before, |f|, ncl);
      var cs := fs.GetFat(ncl);
      if cs == 0 {
        return ncl;
      }
      if cs == 1 {
        return 1;
      }
      PassOne(f, was, scl, before, wrapped, ncl);
      if ncl == scl {
        return 0;
      }
    }
  }

  /** Mark `ncl` as an end and link it behind `clst`, if any. */
  method LinkCluster(fs: FatFs, ncl: nat, clst: nat)
    requires fs.Valid() && 2 <= ncl < fs.y.nFatent && (clst == 0 || 2 <= clst < fs.y.nFatent)
    modifies fs`wflag, fs`disk, fs`winsect, fs`winClust, fs.win
    ensures fs.Valid() && SameButFat(old(fs.View()), fs.View(), fs.y) && |fs.disk| == old(|fs.disk|)
    ensures fs.Fat() == Linked(old(fs.Fat()), clst, ncl, Eoc(fs.y))
  {
    EntriesFit(fs.y, |fs.disk|, ncl);
    var res := fs.PutFat(ncl, DISK_ALL_ONES);
    if clst != 0 {
      res := fs.PutFat(clst, ncl);
    }
  }

  lemma EntriesFit(y: Layout, sectors: nat, c: nat)
    requires y.Sound(sectors) && c < y.nFatent
    ensures Fit(y.t, c) == c
  {
  }

  /** Record an allocation in the volume's counters. */
  method NoteTaken(fs: FatFs, ncl: nat)
    modifies fs`lastClst, fs`freeClst, fs`fsiDirty
    ensures fs.lastClst == ncl
    ensures fs.freeClst ==
            if 0 < old(fs.freeClst) <= fs.y.nFatent - 2 then old(fs.freeClst) - 1 else old(fs.freeClst)
  {
    fs.lastClst := ncl;
    if 0 < fs.freeClst <= fs.y.nFatent - 2 {
      fs.freeClst := fs.freeClst - 1;
      fs.fsiDirty := true;
    }
  }

  /** Where to look for a free cluster behind `clst`: next to it, else from the last one taken. */
  method Choose(fs: FatFs, clst: nat) returns (ncl: nat)
    requires fs.Valid() && (clst == 0 || 2 <= clst < fs.y.nFatent)
    modifies fs`wflag, fs`disk, fs`winsect, fs`winClust, fs.win
    ensures fs.Valid() && SameButFat(old(fs.View()), fs.View(), fs.y) && |fs.disk| == old(|fs.disk|)
    ensures fs.Fat() == old(fs.Fat())
    ensures ncl == 0 ==> NoneFree(fs.Fat())
    ensures ncl == 1 ==> !Sane(fs.Fat())
    ensures ncl >= 2 ==> ncl < fs.y.nFatent && fs.Fat()[ncl] == 0
    ensures |fs.Fat()| > 2 && ncl == Picked(fs.Fat(), fs.lastClst, clst) && Allots(fs.Fat(), fs.lastClst, clst, ncl)
  {
    hide FatFs.Shape, FatFs.Mirrored, FatFs.View, FatFs.Fat, Scan, Allots;
    SizeOfTable(fs);
    var scl := if clst == 0 then fs.lastClst else clst;
    if clst == 0 && (scl == 0 || scl >= fs.y.nFatent) {
      scl := 1;
    }
    ncl := 0;
    if scl == clst {
      ncl := scl + 1;
      if ncl >= fs.y.nFatent {
        ncl := 2;
      }
      var cs := fs.GetFat(ncl);
      if cs == 1 {
        PickedIs(fs.Fat(), fs.lastClst, clst, 1);
        return 1;
      }
      if cs != 0 {
        cs := fs.lastClst;
        if 2 <= cs < fs.y.nFatent {
          scl := cs;
        }
        ncl := 0;
      }
    }
    if ncl == 0 {
      ncl := FindFree(fs, scl);
    }
    PickedIs(fs.Fat(), fs.lastClst, clst, ncl);
  }

  lemma CountAfterLinked(k: nat, f: Fat, clst: nat, n: nat, eoc: nat)
    requires CountsFree(k, f) && NeedsCluster(f, clst) && 2 <= n < |f| && f[n] == 0 && eoc != 0
    ensures CountsFree(if 0 < k <= |f| - 2 then k - 1 else k, Linked(f, clst, n, eoc))
  {
    CountAfterTake(k, f, n, eoc);
    if clst != 0 {
      CountAfterLink(if 0 < k <= |f| - 2 then k - 1 else k, f[n := eoc], clst, n);
    }
  }

  method TakeCluster(fs: FatFs, ncl: nat, clst: nat)
    requires fs.Valid() && NeedsCluster(fs.Fat(), clst) && 2 <= ncl < fs.y.nFatent && fs.Fat()[ncl] == 0
    modifies fs`wflag, fs`disk, fs`winsect, fs`winClust, fs`lastClst, fs`freeClst, fs`fsiDirty, fs.win
    ensures fs.Valid() && SameButFat(old(fs.View()), fs.View(), fs.y) && |fs.disk| == old(|fs.disk|)
    ensures fs.Fat() == Linked(old(fs.Fat()), clst, ncl, Eoc(fs.y)) && fs.lastClst == ncl
    ensures fs.freeClst == if 0 < old(fs.freeClst) <= fs.y.nFatent - 2 then old(fs.freeClst) - 1 else old(fs.freeClst)
    ensures CountsFree(old(fs.freeClst), old(fs.Fat())) ==> CountsFree(fs.freeClst, fs.Fat())
  {
    EocEndsChains(fs.y, |fs.disk|);
    if CountsFree(fs.freeClst, fs.Fat()) {
      CountAfterLinked(fs.freeClst, fs.Fat(), clst, ncl, Eoc(fs.y));
    }
    LinkCluster(fs, ncl, clst);
    NoteTaken(fs, ncl);
  }

  /** Stretch the chain that ends in `clst`, or start a new one when `clst` is 0: the new or next
      cluster, 0 when the disk is full, 1 when the table makes no sense. */
  method CreateChain(fs: FatFs, clst: nat) returns (r: nat)
    requires fs.Valid()
    modifies fs`wflag, fs`disk, fs`winsect, fs`winClust, fs`lastClst, fs`freeClst, fs`fsiDirty, fs.win
    ensures fs.Valid() && SameButFat(old(fs.View()), fs.View(), fs.y) && |fs.disk| == old(|fs.disk|)
    ensures Allocation(old(fs.Fat()), fs.Fat(), old(fs.freeClst), clst, r, Eoc(fs.y))
    ensures CountsFree(old(fs.freeClst), old(fs.Fat())) ==> CountsFree(fs.freeClst, fs.Fat())
    ensures NeedsCluster(old(fs.Fat()), clst) && old(fs.freeClst) != 0 ==>
              |old(fs.Fat())| > 2 && r == Picked(old(fs.Fat()), old(fs.lastClst), clst) && Allots(old(fs.Fat()), old(fs.lastClst), clst, r)
    ensures NeedsCluster(old(fs.Fat()), clst) && old(fs.freeClst) == 0 ==> r == 0
    ensures fs.lastClst == if NeedsCluster(old(fs.Fat()), clst) && r >= 2 then r else old(fs.lastClst)
    ensures fs.freeClst == if NeedsCluster(old(fs.Fat()), clst) && r >= 2 && old(fs.freeClst) <= fs.y.nFatent - 2 then old(fs.freeClst) - 1
                           else old(fs.freeClst)
  {
    hide FatFs.Shape, FatFs.Mirrored, FatFs.View, FatFs.Fat, Linked, CountsFree, Picked, Allots;
    SizeOfTable(fs);
    if clst != 0 {
      var cs := fs.GetFat(clst);
      if cs < 2 {
        return 1;
      }
      if cs < fs.y.nFatent {
        return cs;
      }
    }
    if fs.freeClst == 0 {
      return 0;
    }
    r := Choose(fs, clst);
    if r >= 2 {
      TakeCluster(fs, r, clst);
    }
  }
}
