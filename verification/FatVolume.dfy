/** A mounted FAT volume: the disk as a row of 512-byte sectors seen through a one-sector
    write-back window, and access to single table entries through that window. */
module FatVolume {
  import opened Words
  import opened FatEntry

  type Disk = seq<seq<Byte>>

  datatype FResult = FrOk | FrIntErr | FrDenied

  ghost predicate Sectored(d: Disk) {
    forall s :: 0 <= s < |d| ==> |d[s]| == SS
  }

  /** Where the table and the clusters of a volume lie, as found when it was mounted. */
  datatype Layout = Layout(t: FatType, nFats: nat, fatbase: nat, fsize: nat, database: nat, csize: nat, nFatent: nat)
  {
    ghost predicate Sound(sectors: nat) {
      && 1 <= nFats <= 2
      && 0 < fatbase && 0 < csize && Pow2(csize)
      && fatbase + FatArea() <= database <= sectors
      && 2 < nFatent <= MaxClusters(t) + 2
      && EntryAt(t, nFatent - 1) + EntryLen(t) <= fsize * SS
    }

    /** Number of sectors all copies of the table take. */
    function FatArea(): nat {
      if nFats == 2 then fsize + fsize else fsize
    }

    /** Every cluster lies on the disk. */
    ghost predicate DataFits(sectors: nat) {
      2 < nFatent && database + csize * (nFatent - 2) <= sectors
    }

    /** The sectors of the second table, when there is one. */
    predicate InMirror(s: int) {
      nFats == 2 && fatbase + fsize <= s < fatbase + 2 * fsize
    }

    predicate InTable(s: int) {
      fatbase <= s < fatbase + fsize
    }

    /** First sector of cluster `c`. */
    function ClusterSector(c: nat): nat {
      database + csize * if c < 2 then 0 else c - 2
    }
  }

  /** The bytes of the first table. */
  ghost function TableBytes(d: Disk, y: Layout): (b: seq<Byte>)
    requires Sectored(d) && y.Sound(|d|)
    ensures |b| == y.fsize * SS
  {
    seq(y.fsize * SS, i requires 0 <= i < y.fsize * SS => d[y.fatbase + i / SS][i % SS])
  }

  lemma EntryInside(y: Layout, sectors: nat, c: nat)
    requires y.Sound(sectors) && c < y.nFatent
    ensures EntryAt(y.t, c) + EntryLen(y.t) <= y.fsize * SS
  {
  }

  /** The table as a sequence of entries, one for each cluster number. */
  ghost function Entries(b: seq<Byte>, y: Layout, sectors: nat): (f: seq<nat>)
    requires y.Sound(sectors) && |b| == y.fsize * SS
    ensures |f| == y.nFatent
    ensures forall c :: 0 <= c < |f| ==> f[c] < EntryMod(y.t)
  {
    seq(y.nFatent, c requires 0 <= c < y.nFatent => EntryInside(y, sectors, c); GetEntry(b, y.t, c))
  }

  /** Disks that agree on the sectors of the first table hold the same table. */
  lemma TableLocal(d: Disk, e: Disk, y: Layout)
    requires Sectored(d) && Sectored(e) && |d| == |e| && y.Sound(|d|)
    requires forall s :: y.InTable(s) ==> d[s] == e[s]
    ensures TableBytes(d, y) == TableBytes(e, y)
  {
    var n := y.fsize * SS;
    forall i | 0 <= i < n
      ensures TableBytes(d, y)[i] == TableBytes(e, y)[i]
    {
      assert y.InTable(y.fatbase + i / SS);
    }
  }

  /** The two disks differ at most in the second table. */
  ghost predicate SameButMirror(d: Disk, e: Disk, y: Layout) {
    |d| == |e| && forall s :: 0 <= s < |d| && !y.InMirror(s) ==> e[s] == d[s]
  }

  /** The two disks differ at most in the tables. */
  ghost predicate SameButFat(d: Disk, e: Disk, y: Layout) {
    |d| == |e| && forall s :: 0 <= s < |d| && !y.InMirror(s) && !y.InTable(s) ==> e[s] == d[s]
  }

  function SetByte(d: Disk, s: nat, k: nat, x: Byte): (e: Disk)
    requires s < |d| && k < |d[s]|
  {
    var sector: seq<Byte> := d[s][k := x];
    d[s := sector]
  }

  /** An entry aligned to its own size does not leave its sector. */
  lemma EntryFits(at: nat, len: nat)
    requires len == 1 || len == 2 || len == 4
    requires at % len == 0
    ensures at % SS + len <= SS
  {
  }

  lemma SubSlice(b: seq<Byte>, lo: nat, k: nat, at: nat, len: nat)
    requires at == lo + k && k + len <= SS && lo + SS <= |b|
    ensures b[lo..lo + SS][k..k + len] == b[at..at + len]
  {
  }

  /** Changing one byte of one table sector changes one byte of the table. */
  lemma TableByteSet(d: Disk, y: Layout, s: nat, k: nat, x: Byte)
    requires Sectored(d) && y.Sound(|d|) && y.InTable(s) && k < SS
    ensures var e := SetByte(d, s, k, x);
            Sectored(e) && TableBytes(e, y) == TableBytes(d, y)[(s - y.fatbase) * SS + k := x]
  {
    var e := SetByte(d, s, k, x);
    var b := TableBytes(d, y)[(s - y.fatbase) * SS + k := x];
    forall i | 0 <= i < y.fsize * SS
      ensures TableBytes(e, y)[i] == b[i]
    {
      assert i == i / SS * SS + i % SS;
      if i / SS != s - y.fatbase {
        assert e[y.fatbase + i / SS] == d[y.fatbase + i / SS];
      }
    }
  }

  /** Storing one entry in the table's bytes stores it in the table and nowhere else. */
  lemma EntriesPut(b: seq<Byte>, y: Layout, sectors: nat, c: nat, v: nat)
    requires y.Sound(sectors) && |b| == y.fsize * SS && c < y.nFatent && HasEntry(b, y.t, c)
    ensures Entries(PutEntry(b, y.t, c, v), y, sectors) == Entries(b, y, sectors)[c := Fit(y.t, v)]
  {
    var e := PutEntry(b, y.t, c, v);
    forall j | 0 <= j < y.nFatent
      ensures Entries(e, y, sectors)[j] == Entries(b, y, sectors)[c := Fit(y.t, v)][j]
    {
      EntryInside(y, sectors, j);
      if j == c {
        GetAfterPut(b, y.t, c, v);
      } else {
        GetAfterPutOther(b, y.t, c, v, j);
      }
    }
  }

  /** A data sector in the window belongs to the directory cluster `clust`. */
  ghost predicate WindowPlaced(y: Layout, sect: nat, clust: nat, dirs: set<nat>) {
    sect >= y.database ==>
      clust in dirs && 2 <= clust < y.nFatent
      && y.ClusterSector(clust) <= sect < y.ClusterSector(clust) + y.csize
  }

  class FatFs {
    const y: Layout
    const win: array<Byte>
    var winsect: nat
    var wflag: bool
    var disk: Disk
    var lastClst: nat
    var freeClst: nat
    var fsiDirty: bool
    /** Clusters that hold directories; only these data sectors may appear in the window. */
    ghost var dirs: set<nat>
    ghost var winClust: nat
    /** The cluster chains of the files on the volume. */
    ghost var chains: seq<seq<nat>>

    constructor (y: Layout, disk: Disk, sect: nat, free: nat, last: nat, ghost files: seq<seq<nat>>, ghost dirs: set<nat>)
      requires Sectored(disk) && y.Sound(|disk|) && y.DataFits(|disk|)
      requires sect < y.database && sect < |disk| && !y.InMirror(sect)
      requires y.nFats == 2 ==> forall s :: y.InTable(s) ==> disk[s + y.fsize] == disk[s]
      ensures Valid() && View() == disk && this.y == y && this.dirs == dirs && chains == files && freeClst == free && lastClst == last
      ensures Fat() == Entries(TableBytes(disk, y), y, |disk|)
      ensures fresh(win)
    {
      this.y := y;
      this.disk := disk;
      win := new Byte[SS](i requires 0 <= i < SS => disk[sect][i]);
      winsect := sect;
      wflag := false;
      lastClst, freeClst, fsiDirty := last, free, false;
      this.dirs, winClust, chains := dirs, 0, files;
      new;
      assert win[..] == disk[sect];
      assert View() == disk;
    }

    /** Everything the window machinery relies on. */
    ghost predicate Shape()
      reads `disk, `winsect, `wflag, `dirs, `winClust, win
    {
      && win.Length == SS
      && Sectored(disk)
      && y.Sound(|disk|) && y.DataFits(|disk|)
      && winsect < |disk|
      && !y.InMirror(winsect)
      && (!wflag ==> win[..] == disk[winsect])
      && WindowPlaced(y, winsect, winClust, dirs)
    }

    /** The disk as any reader sees it: the sector in the window comes from the window. */
    ghost function View(): (d: Disk)
      requires Shape()
      reads `disk, `winsect, `wflag, `dirs, `winClust, win
      ensures |d| == |disk| && Sectored(d)
    {
      disk[winsect := win[..]]
    }

    /** Every first-table sector other than a dirty window equals its mirror. */
    ghost predicate Mirrored()
      requires Shape()
      reads `disk, `winsect, `wflag, `dirs, `winClust, win
    {
      y.nFats == 2 ==>
        forall s :: y.InTable(s) && !(wflag && s == winsect) ==> disk[s + y.fsize] == disk[s]
    }

    ghost predicate Valid()
      reads `disk, `winsect, `wflag, `dirs, `winClust, win
    {
      Shape() && Mirrored()
    }

    /** The bytes of the first table. */
    ghost function Bytes(): (b: seq<Byte>)
      requires Shape()
      reads `disk, `winsect, `wflag, `dirs, `winClust, win
      ensures |b| == y.fsize * SS
    {
      TableBytes(View(), y)
    }

    /** The entries of the first table. */
    ghost function Fat(): (f: seq<nat>)
      requires Shape()
      reads `disk, `winsect, `wflag, `dirs, `winClust, win
      ensures |f| == y.nFatent
      ensures forall c :: 0 <= c < |f| ==> f[c] < EntryMod(y.t)
    {
      Entries(Bytes(), y, |disk|)
    }

    method SyncWindow()
      requires Valid()
      modifies this`wflag, this`disk
      ensures Valid() && !wflag && |disk| == old(|disk|)
      ensures SameButMirror(old(View()), View(), y)
    {
      if wflag {
        disk := disk[winsect := win[..]];
        wflag := false;
        if y.fatbase <= winsect < y.fatbase + y.fsize {
          if y.nFats == 2 {
            disk := disk[winsect + y.fsize := win[..]];
          }
        }
      }
    }

    /** Load sector `sect` into the window; a data sector must belong to a directory. */
    method MoveWindow(sect: nat, ghost clust: nat)
      requires Valid() && sect < |disk| && !y.InMirror(sect)
      requires WindowPlaced(y, sect, clust, dirs)
      modifies this`wflag, this`disk, this`winsect, this`winClust, win
      ensures Valid() && winsect == sect && |disk| == old(|disk|)
      ensures SameButMirror(old(View()), View(), y)
    {
      if sect != winsect {
        SyncWindow();
        forall i | 0 <= i < SS {
          win[i] := disk[sect][i];
        }
        assert win[..] == disk[sect];
        winsect := sect;
        winClust := clust;
      } else {
        winClust := clust;
      }
    }

    lemma WindowShowsTable(at: nat)
      requires Shape() && y.InTable(winsect) && winsect == y.fatbase + at / SS
      ensures at / SS * SS + SS <= |Bytes()|
      ensures win[..] == Bytes()[at / SS * SS..at / SS * SS + SS]
    {
      var lo := at / SS * SS;
      forall k | 0 <= k < SS
        ensures win[k] == Bytes()[lo + k]
      {
        assert (lo + k) / SS == at / SS && (lo + k) % SS == k;
      }
    }

    /** Bring the table sector that holds byte `at` of the table into the window. */
    method ShowTableByte(at: nat)
      requires Valid() && at < y.fsize * SS
      modifies this`wflag, this`disk, this`winsect, this`winClust, win
      ensures Valid() && SameButMirror(old(View()), View(), y) && |disk| == old(|disk|)
      ensures winsect == y.fatbase + at / SS && y.InTable(winsect)
      ensures Bytes() == old(Bytes())
      ensures win[at % SS] == Bytes()[at]
    {
      MoveWindow(y.fatbase + at / SS, 0);
      TableLocal(old(View()), View(), y);
      WindowShowsTable(at);
      assert win[..][at % SS] == Bytes()[at];
    }

    /** Store one byte of the table sector in the window. */
    method StoreByte(k: nat, x: Byte)
      requires Valid() && y.InTable(winsect) && k < SS
      modifies this`wflag, win
      ensures Valid() && wflag && |disk| == |old(disk)|
      ensures View() == SetByte(old(View()), winsect, k, x)
      ensures Bytes() == old(Bytes())[(winsect - y.fatbase) * SS + k := x]
    {
      TableByteSet(View(), y, winsect, k, x);
      win[k] := x;
      wflag := true;
      assert win[..] == old(win[..])[k := x];
      assert View() == SetByte(old(View()), winsect, k, x);
    }

    /** Bring an entry that does not straddle sectors into the window; `k` is where it starts. */
    method ShowEntry(at: nat, len: nat) returns (k: nat)
      requires Valid() && (len == 2 || len == 4) && at % len == 0 && at + len <= y.fsize * SS
      modifies this`wflag, this`disk, this`winsect, this`winClust, win
      ensures Valid() && SameButMirror(old(View()), View(), y) && |disk| == old(|disk|)
      ensures k + len <= SS == win.Length && y.InTable(winsect) && (winsect - y.fatbase) * SS + k == at
      ensures Bytes() == old(Bytes())
      ensures win[k..k + len] == Bytes()[at..at + len]
    {
      hide View, Bytes, Mirrored, SameButMirror;
      ShowTableByte(at);
      k := at % SS;
      EntryFits(at, len);
      WindowShowsTable(at);
      SubSlice(Bytes(), at / SS * SS, k, at, len);
      assert win[..][k..k + len] == Bytes()[at..at + len];
    }

    /** Assemble the two bytes of a FAT12 entry, moving the window between them if needed. */
    method GetFat12(clst: nat) returns (val: nat)
      requires Valid() && y.t == Fat12 && clst + clst / 2 + 2 <= y.fsize * SS
      modifies this`wflag, this`disk, this`winsect, this`winClust, win
      ensures Valid() && SameButMirror(old(View()), View(), y) && |disk| == old(|disk|)
      ensures Bytes() == old(Bytes()) && val == GetEntry(Bytes(), Fat12, clst)
    {
      var bc := clst + clst / 2;
      ShowTableByte(bc);
      var lo := win[bc % SS];
      bc := bc + 1;
      ShowTableByte(bc);
      var wc := Word16(lo, win[bc % SS]);
      val := if clst % 2 == 1 then wc / 16 else wc % 4096;
    }

    method GetFat16(clst: nat) returns (val: nat)
      requires Valid() && y.t == Fat16 && 2 * clst + 2 <= y.fsize * SS
      modifies this`wflag, this`disk, this`winsect, this`winClust, win
      ensures Valid() && SameButMirror(old(View()), View(), y) && |disk| == old(|disk|)
      ensures Bytes() == old(Bytes()) && val == GetEntry(Bytes(), Fat16, clst)
    {
      var k := ShowEntry(2 * clst, 2);
      var w := win[k..k + 2];
      val := Word16(w[0], w[1]);
    }

    method GetFat32(clst: nat) returns (val: nat)
      requires Valid() && y.t == Fat32 && 4 * clst + 4 <= y.fsize * SS
      modifies this`wflag, this`disk, this`winsect, this`winClust, win
      ensures Valid() && SameButMirror(old(View()), View(), y) && |disk| == old(|disk|)
      ensures Bytes() == old(Bytes()) && val == GetEntry(Bytes(), Fat32, clst)
    {
      hide Shape, View, Bytes, SameButMirror, Word32;
      var k := ShowEntry(4 * clst, 4);
      var w := win[k..k + 4];
      val := Word32(w[0], w[1], w[2], w[3]) % 0x1000_0000;
    }

    /** The value of the entry of cluster `clst`, or 1 when there is no such cluster. */
    method GetFat(clst: nat) returns (val: nat)
      requires Valid()
      modifies this`wflag, this`disk, this`winsect, this`winClust, win
      ensures Valid() && SameButMirror(old(View()), View(), y) && |disk| == old(|disk|)
      ensures Fat() == old(Fat())
      ensures val == if 2 <= clst < y.nFatent then Fat()[clst] else 1
    {
      if clst < 2 || clst >= y.nFatent {
        return 1;
      }
      EntryInside(y, |disk|, clst);
      match y.t {
        case Fat12 => val := GetFat12(clst);
        case Fat16 => val := GetFat16(clst);
        case Fat32 => val := GetFat32(clst);
      }
    }

    /** Update the first or the second byte of a FAT12 entry, at byte `bc` of the table. */
    method PutByte12(bc: nat, clst: nat, val: nat)
      requires Valid() && bc < y.fsize * SS
      requires bc == clst + clst / 2 || bc == clst + clst / 2 + 1
      modifies this`wflag, this`disk, this`winsect, this`winClust, win
      ensures Valid() && SameButFat(old(View()), View(), y) && |disk| == old(|disk|)
      ensures var b := old(Bytes());
              Bytes() == b[bc := if bc == clst + clst / 2 then Fst12(b[bc], clst, val) else Snd12(b[bc], clst, val)]
    {
      ShowTableByte(bc);
      var was := win[bc % SS];
      StoreByte(bc % SS, if bc == clst + clst / 2 then Fst12(was, clst, val) else Snd12(was, clst, val));
    }

    method PutFat12(clst: nat, val: nat)
      requires Valid() && y.t == Fat12 && clst + clst / 2 + 2 <= y.fsize * SS
      modifies this`wflag, this`disk, this`winsect, this`winClust, win
      ensures Valid() && SameButFat(old(View()), View(), y) && |disk| == old(|disk|)
      ensures Bytes() == PutEntry(old(Bytes()), Fat12, clst, val)
    {
      var bc := clst + clst / 2;
      PutByte12(bc, clst, val);
      bc := bc + 1;
      PutByte12(bc, clst, val);
    }

    method PutFat16(clst: nat, val: nat)
      requires Valid() && y.t == Fat16 && 2 * clst + 2 <= y.fsize * SS
      modifies this`wflag, this`disk, this`winsect, this`winClust, win
      ensures Valid() && SameButFat(old(View()), View(), y) && |disk| == old(|disk|)
      ensures Bytes() == PutEntry(old(Bytes()), Fat16, clst, val)
    {
      var k := ShowEntry(2 * clst, 2);
      StoreByte(k, val % 256);
      StoreByte(k + 1, val / 256 % 256);
    }

    method PutFat32(clst: nat, val: nat)
      requires Valid() && y.t == Fat32 && 4 * clst + 4 <= y.fsize * SS
      modifies this`wflag, this`disk, this`winsect, this`winClust, win
      ensures Valid() && SameButFat(old(View()), View(), y) && |disk| == old(|disk|)
      ensures Bytes() == PutEntry(old(Bytes()), Fat32, clst, val)
    {
      hide Valid, Shape, View, Bytes, Top32;
      var k := ShowEntry(4 * clst, 4);
      var w := win[k..k + 4];
      StoreByte(k, val % 256);
      StoreByte(k + 1, val / 256 % 256);
      StoreByte(k + 2, val / 0x10000 % 256);
      StoreByte(k + 3, Top32(w[3], val));
    }

    /** Store `val`, cut to the width of an entry, as the entry of cluster `clst`. */
    method PutFat(clst: nat, val: nat) returns (res: FResult)
      requires Valid()
      modifies this`wflag, this`disk, this`winsect, this`winClust, win
      ensures Valid() && SameButFat(old(View()), View(), y) && |disk| == old(|disk|)
      ensures res == if 2 <= clst < y.nFatent then FrOk else FrIntErr
      ensures res == FrOk ==> HasEntry(old(Bytes()), y.t, clst)
                              && Bytes() == PutEntry(old(Bytes()), y.t, clst, val)
      ensures Fat() == if 2 <= clst < y.nFatent then old(Fat())[clst := Fit(y.t, val)] else old(Fat())
    {
      res := FrIntErr;
      if 2 <= clst < y.nFatent {
        EntryInside(y, |disk|, clst);
        EntriesPut(Bytes(), y, |disk|, clst, val);
        match y.t {
          case Fat12 => PutFat12(clst, val);
          case Fat16 => PutFat16(clst, val);
          case Fat32 => PutFat32(clst, val);
        }
        res := FrOk;
      }
    }
  }

}
