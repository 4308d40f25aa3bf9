/** Writing a new volume to a disk, and what is found when it is mounted. */
module FatNewVolume {
  import opened Words
  import opened FatEntry
  import opened FatVolume
  import opened FatTable
  import opened FatContent
  import opened FatFormat
  import opened FatBoot

  /** The first sector of a new table: its two reserved entries and, on FAT32, the root directory's. */
  function FatHead(t: FatType): (s: Bytes)
    ensures |s| == SS
  {
    match t
    case Fat12 => Overwrite(Blank(), 0, Le32(0xFFFFF8))
    case Fat16 => Overwrite(Blank(), 0, Le32(0xFFFF_FFF8))
    case Fat32 => Overwrite(Overwrite(Overwrite(Blank(), 0, Le32(0xFFFF_FFF8)), 4, Le32(0xFFFF_FFFF)), 8, Le32(0x0FFF_FFFF))
  }

  /** Sectors of the root directory; on FAT32 it is the first cluster. */
  function RootSectors(c: Config): nat {
    if c.t == Fat32 then c.pau else c.dir
  }

  /** A layout that fits its volume, with room for the root directory. */
  predicate Writable(o: Opts, c: Config) {
    Usable(o) && Fitting(o, c) && c.rsv + AllFats(c.fat, o.nFat) + RootSectors(c) <= o.vol && (c.t == Fat32 ==> c.clusters > 0)
  }

  lemma FittingWritable(o: Opts, c: Config)
    requires Usable(o) && Fitting(o, c)
    ensures Writable(o, c)
  {
    hide Fitting, Usable, Estimate, Pow2, AllFats;
    FittingFacts(o, c);
    if c.t == Fat32 {
      InVolume(o.vol - Front(o, c), c.pau);
      Times(c.pau, 1, c.clusters - 1);
    }
  }

  predicate InFats(o: Opts, c: Config, s: int) {
    c.rsv <= s < c.rsv + AllFats(c.fat, o.nFat)
  }

  predicate InRoot(o: Opts, c: Config, s: int) {
    c.rsv + AllFats(c.fat, o.nFat) <= s < c.rsv + AllFats(c.fat, o.nFat) + RootSectors(c)
  }

  /** Sector `s` of the new volume; `was` is what it held before. */
  function NewSector(o: Opts, c: Config, vsn: nat, s: nat, was: Bytes): Bytes
    requires c.t == Fat32 ==> c.clusters > 0
  {
    if s == 0 || (c.t == Fat32 && s == 6) then Vbr(o, c, vsn)
    else if c.t == Fat32 && (s == 1 || s == 7) then FsInfo(c)
    else if InFats(o, c, s) then (if s == c.rsv || s == c.rsv + c.fat then FatHead(c.t) else Blank())
    else if InRoot(o, c, s) then Blank()
    else was
  }

  function NewDisk(d: Disk, o: Opts, c: Config, vsn: nat): (e: Disk)
    requires c.t == Fat32 ==> c.clusters > 0
    ensures |e| == |d| && forall s :: 0 <= s < |d| ==> e[s] == NewSector(o, c, vsn, s, d[s])
  {
    seq(|d|, s requires 0 <= s < |d| => NewSector(o, c, vsn, s, d[s]))
  }

  // ---------- writing ----------

  /** Write `n` sectors: `first`, and zeros behind it. */
  method WriteSectors(disk: array<Bytes>, sect: nat, first: Bytes, n: nat)
    requires sect + n <= disk.Length
    modifies disk
    ensures forall s :: 0 <= s < disk.Length ==>
              disk[s] == if s == sect && n > 0 then first else if sect <= s < sect + n then Blank() else old(disk[s])
  {
    var k := 0;
    while k < n
      invariant k <= n
      invariant forall s :: 0 <= s < disk.Length ==>
                  disk[s] == if s == sect && k > 0 then first else if sect <= s < sect + k then Blank() else old(disk[s])
    {
      disk[sect + k] := if k == 0 then first else Blank();
      k := k + 1;
    }
  }

  /** Fill an area through a working buffer of `bufSectors` sectors: `first`, and zeros behind it. */
  method FillArea(disk: array<Bytes>, from: nat, first: Bytes, count: nat, bufSectors: nat)
    requires from + count <= disk.Length && count > 0 && bufSectors > 0
    modifies disk
    ensures forall s :: 0 <= s < disk.Length ==>
              disk[s] == if s == from then first else if from < s < from + count then Blank() else old(disk[s])
  {
    hide Blank;
    var sect, nsect, lead := from, count, first;
    while nsect > 0
      invariant sect + nsect == from + count && 0 <= nsect <= count
      invariant lead == if nsect == count then first else Blank()
      invariant forall s :: 0 <= s < disk.Length ==>
                  disk[s] == if from <= s < sect then (if s == from then first else Blank()) else old(disk[s])
    {
      var n := if nsect > bufSectors then bufSectors else nsect;
      WriteSectors(disk, sect, lead, n);
      lead := Blank();
      sect, nsect := sect + n, nsect - n;
    }
  }

  /** Write boot sector, tables and root directory. */
  method FormatVolume(disk: array<Bytes>, o: Opts, c: Config, vsn: nat, bufSectors: nat)
    requires Writable(o, c) && disk.Length == o.vol && bufSectors > 0
    modifies disk
    ensures disk[..] == NewDisk(old(disk[..]), o, c, vsn)
  {
    hide Fitting, Blank, Vbr, FsInfo, FatHead, Pow2;
    ghost var d := disk[..];
    WritableFacts(o, c);
    WriteHeads(disk, o, c, vsn);
    var sect := WriteFats(disk, o, c, bufSectors);
    FillArea(disk, sect, Blank(), RootSectors(c), bufSectors);
    forall s: nat | s < disk.Length
      ensures disk[s] == NewSector(o, c, vsn, s, d[s])
    {
    }
  }

  /** The boot sector, on FAT32 with the FSINFO sector and the copies of both. */
  method WriteHeads(disk: array<Bytes>, o: Opts, c: Config, vsn: nat)
    requires Writable(o, c) && disk.Length == o.vol
    modifies disk
    ensures forall s :: 0 <= s < disk.Length ==>
              disk[s] == if s == 0 || (c.t == Fat32 && s == 6) then Vbr(o, c, vsn)
                         else if c.t == Fat32 && (s == 1 || s == 7) then FsInfo(c) else old(disk[s])
  {
    hide Fitting, Vbr, FsInfo, Pow2;
    WritableFacts(o, c);
    var buf := new Byte[SS];
    WriteVbr(buf, o, c, vsn);
    disk[0] := buf[..];
    if c.t == Fat32 {
      disk[6] := buf[..];
      WriteFsInfo(buf, c);
      disk[7] := buf[..];
      disk[1] := buf[..];
    }
  }

  /** All copies of the table. */
  method WriteFats(disk: array<Bytes>, o: Opts, c: Config, bufSectors: nat) returns (sect: nat)
    requires Writable(o, c) && disk.Length == o.vol && bufSectors > 0
    modifies disk
    ensures sect == c.rsv + AllFats(c.fat, o.nFat)
    ensures forall s :: 0 <= s < disk.Length ==>
              disk[s] == if !(c.rsv <= s < sect) then old(disk[s])
                         else if s == c.rsv || s == c.rsv + c.fat then FatHead(c.t) else Blank()
  {
    hide Fitting, Blank, FatHead, Pow2;
    WritableFacts(o, c);
    var i := 0;
    sect := c.rsv;
    while i < o.nFat
      invariant i <= o.nFat && sect == c.rsv + AllFats(c.fat, if i == 2 then 2 else 1) - (if i == 0 then c.fat else 0)
      invariant forall s :: 0 <= s < disk.Length && !(c.rsv <= s < sect) ==> disk[s] == old(disk[s])
      invariant forall s :: c.rsv <= s < sect ==> disk[s] == if s == c.rsv || s == c.rsv + c.fat then FatHead(c.t) else Blank()
    {
      FillArea(disk, sect, FatHead(c.t), c.fat, bufSectors);
      sect := sect + c.fat;
      i := i + 1;
    }
  }

  lemma WritableFacts(o: Opts, c: Config)
    requires Writable(o, c)
    ensures 128 <= o.vol && 1 <= o.nFat <= 2 && 0 < c.rsv && 0 < c.fat && (c.t == Fat32 ==> c.rsv >= 32 && c.clusters > 0)
    ensures 0 < RootSectors(c) && c.rsv + AllFats(c.fat, o.nFat) + RootSectors(c) <= o.vol
  {
  }

  /** The first twelve bytes of a new table: medium and end marks in the reserved entries, and on FAT32 the end mark
      of the root directory. */
  ghost predicate TableStart(s: Bytes, t: FatType) {
    && |s| == SS
    && match t
       case Fat12 => s[0] == 0xF8 && s[1] == s[2] == 0xFF && ZeroFrom(s, 3, SS)
       case Fat16 => s[0] == 0xF8 && s[1] == s[2] == s[3] == 0xFF && ZeroFrom(s, 4, SS)
       case Fat32 => s[0] == 0xF8 && s[1] == s[2] == s[3] == s[4] == s[5] == s[6] == s[7] == s[8] == s[9] == s[10] == 0xFF
                     && s[11] == 0x0F && ZeroFrom(s, 12, SS)
  }

  lemma HeadIs(t: FatType)
    ensures TableStart(FatHead(t), t)
  {
    hide Overwrite, Blank;
    LeIs(0xFFFFF8);
    LeIs(0xFFFF_FFF8);
    LeIs(0xFFFF_FFFF);
    LeIs(0x0FFF_FFFF);
  }

  /** The new volume sector by sector: each table starts with its marks and is zero behind them, on FAT32 boot and FSINFO
      sector have copies in sectors 6 and 7, the root directory is zero, and no other sector is touched. */
  lemma NewDiskIs(d: Disk, o: Opts, c: Config, vsn: nat, s: nat)
    requires Writable(o, c) && |d| == o.vol && s < |d|
    ensures var e, fats, root := NewDisk(d, o, c, vsn), c.rsv + (if o.nFat == 2 then 2 * c.fat else c.fat), if c.t == Fat32 then c.pau else c.dir;
            && (c.t == Fat32 ==> e[6] == e[0] && e[7] == e[1])
            && (if s == 0 || (c.t == Fat32 && (s == 1 || s == 6 || s == 7)) then true
                else if s == c.rsv || (o.nFat == 2 && s == c.rsv + c.fat) then TableStart(e[s], c.t)
                else if c.rsv <= s < fats + root then ZeroFrom(e[s], 0, SS) && |e[s]| == SS
                else e[s] == d[s])
  {
    hide Fitting, Usable, Vbr, FsInfo, FatHead, TableStart;
    WritableFacts(o, c);
    HeadIs(c.t);
  }

  // ---------- mounting the new volume ----------

  /** The table of a new volume: its reserved entries, on FAT32 the end mark of the root directory, and
      no other cluster in use. */
  ghost predicate NewTable(f: Fat, t: FatType) {
    |f| > 2 && (forall k :: 2 <= k < |f| && !(t == Fat32 && k == 2) ==> f[k] == 0) && (t == Fat32 ==> f[2] == 0x0FFF_FFFF)
  }

  ghost function NewChains(t: FatType): seq<seq<nat>> {
    if t == Fat32 then [[2]] else []
  }

  /** Such a table is well formed; on FAT32 it holds the root directory's chain. */
  lemma NewTableWellFormed(f: Fat, t: FatType)
    requires NewTable(f, t) && |f| <= MaxClusters(t) + 2
    ensures WellFormed(f, NewChains(t)) && Sane(f)
  {
    if t == Fat32 {
      assert IsChain(f, [2]);
      assert 2 in NewChains(t)[0];
      assert InSome(NewChains(t), 2);
    }
  }

  lemma {:induction false} NewFreeBelow(f: Fat, t: FatType, n: nat)
    requires NewTable(f, t) && n <= |f|
    ensures FreeBelow(f, n) == if n <= 2 then 0 else if t == Fat32 then n - 3 else n - 2
  {
    if n > 2 {
      NewFreeBelow(f, t, n - 1);
    }
  }

  /** An entry of zero bytes is zero. */
  lemma ZeroEntry(b: Bytes, t: FatType, k: nat)
    requires HasEntry(b, t, k) && forall i :: EntryAt(t, k) <= i < EntryAt(t, k) + EntryLen(t) ==> b[i] == 0
    ensures GetEntry(b, t, k) == 0
  {
    hide EntryAt, Word16, Word32;
    var i := EntryAt(t, k);
    assert b[i] == 0 && b[i + 1] == 0;
    assert t == Fat32 ==> b[i + 2] == 0 && b[i + 3] == 0;
    ZeroWords();
  }

  lemma ZeroWords()
    ensures Word16(0, 0) == 0 && Word32(0, 0, 0, 0) == 0
  {
  }

  /** How many bytes of a new table's first sector are not zero. */
  function HeadLen(t: FatType): nat {
    match t
    case Fat12 => 3
    case Fat16 => 4
    case Fat32 => 12
  }

  lemma HeadZeros(t: FatType)
    ensures forall i :: HeadLen(t) <= i < SS ==> FatHead(t)[i] == 0
    ensures t == Fat32 ==> Has32(FatHead(t), 8, 0x0FFF_FFFF)
  {
    hide Overwrite, Blank;
    LeIs(0xFFFFF8);
    LeIs(0xFFFF_FFF8);
    LeIs(0x0FFF_FFFF);
  }

  lemma BehindHead(t: FatType, k: nat)
    requires 2 <= k && !(t == Fat32 && k == 2)
    ensures HeadLen(t) <= EntryAt(t, k)
  {
  }

  /** Where the bytes of the new table come from. */
  lemma NewTableByte(d: Disk, e: Disk, y: Layout, o: Opts, c: Config, vsn: nat, i: nat)
    requires Writable(o, c) && |d| == o.vol && e == NewDisk(d, o, c, vsn) && Sectored(e) && y.Sound(|e|)
    requires y.fatbase == c.rsv && y.fsize == c.fat && HeadLen(c.t) <= i < c.fat * SS
    ensures TableBytes(e, y)[i] == 0
  {
    hide Fitting, Pow2, FatHead, Blank, Vbr, FsInfo;
    WritableFacts(o, c);
    HeadZeros(c.t);
    var s := c.rsv + i / SS;
    assert InFats(o, c, s) && s < |e|;
    assert i / SS == 0 ==> i % SS == i;
  }

  lemma NewTableEntries(d: Disk, e: Disk, y: Layout, o: Opts, c: Config, vsn: nat)
    requires Writable(o, c) && |d| == o.vol && e == NewDisk(d, o, c, vsn) && Sectored(e) && y.Sound(|e|)
    requires y.fatbase == c.rsv && y.fsize == c.fat && y.t == c.t
    ensures NewTable(Entries(TableBytes(e, y), y, |e|), c.t)
  {
    hide Fitting, Writable, NewDisk, TableBytes, GetEntry, Entries, EntryAt, EntryLen;
    var b := TableBytes(e, y);
    forall k | 2 <= k < y.nFatent && !(c.t == Fat32 && k == 2)
      ensures Entries(b, y, |e|)[k] == 0
    {
      EntryInside(y, |e|, k);
      EntriesAt(b, y, |e|, k);
      forall i | EntryAt(c.t, k) <= i < EntryAt(c.t, k) + EntryLen(c.t)
        ensures b[i] == 0
      {
        BehindHead(c.t, k);
        NewTableByte(d, e, y, o, c, vsn, i);
      }
      ZeroEntry(b, c.t, k);
    }
    if c.t == Fat32 {
      RootEntry(d, e, y, o, c, vsn);
      EntriesAt(b, y, |e|, 2);
    }
  }

  lemma EntriesAt(b: Bytes, y: Layout, sectors: nat, k: nat)
    requires y.Sound(sectors) && |b| == y.fsize * SS && k < y.nFatent
    ensures Entries(b, y, sectors)[k] == GetEntryAt(b, y, sectors, k)
  {
  }

  ghost function GetEntryAt(b: Bytes, y: Layout, sectors: nat, k: nat): nat
    requires y.Sound(sectors) && |b| == y.fsize * SS && k < y.nFatent
  {
    EntryInside(y, sectors, k);
    GetEntry(b, y.t, k)
  }

  lemma RootEntry(d: Disk, e: Disk, y: Layout, o: Opts, c: Config, vsn: nat)
    requires Writable(o, c) && |d| == o.vol && e == NewDisk(d, o, c, vsn) && Sectored(e) && y.Sound(|e|)
    requires y.fatbase == c.rsv && y.fsize == c.fat && y.t == c.t == Fat32
    ensures GetEntryAt(TableBytes(e, y), y, |e|, 2) == 0x0FFF_FFFF
  {
    hide Fitting, Pow2, FatHead, Blank, Vbr, FsInfo, GetEntry, Layout.Sound, GetEntryAt;
    WritableFacts(o, c);
    HeadZeros(Fat32);
    var b := TableBytes(e, y);
    assert InFats(o, c, c.rsv) && e[c.rsv] == FatHead(Fat32);
    assert |b| > 12 && b[8] == e[c.rsv][8] && b[9] == e[c.rsv][9] && b[10] == e[c.rsv][10] && b[11] == e[c.rsv][11];
    Entry2(b, y, |e|);
  }

  lemma Entry2(b: Bytes, y: Layout, sectors: nat)
    requires y.Sound(sectors) && |b| == y.fsize * SS && y.t == Fat32 && Has32(b, 8, 0x0FFF_FFFF)
    ensures GetEntryAt(b, y, sectors, 2) == 0x0FFF_FFFF
  {
    Read32(b, 8, 0x0FFF_FFFF);
  }

  /** The copies of the new table are equal. */
  lemma NewMirror(d: Disk, o: Opts, c: Config, vsn: nat, s: nat)
    requires Writable(o, c) && |d| == o.vol && o.nFat == 2 && c.rsv <= s < c.rsv + c.fat
    ensures s + c.fat < |d| && NewDisk(d, o, c, vsn)[s + c.fat] == NewDisk(d, o, c, vsn)[s]
  {
    hide Fitting, Pow2, FatHead, Blank, Vbr, FsInfo;
    WritableFacts(o, c);
  }

  lemma NewSectored(d: Disk, o: Opts, c: Config, vsn: nat)
    requires Sectored(d) && (c.t == Fat32 ==> c.clusters > 0)
    ensures Sectored(NewDisk(d, o, c, vsn))
  {
    hide Vbr, FsInfo, FatHead, Blank, InFats, InRoot;
  }

  /** The root directory of a new volume is empty: all its sectors are zero. */
  lemma NewRootEmpty(d: Disk, o: Opts, c: Config, vsn: nat, s: nat)
    requires Writable(o, c) && |d| == o.vol && InRoot(o, c, s)
    ensures s < |d| && NewDisk(d, o, c, vsn)[s] == Blank()
  {
    hide Fitting, Pow2, FatHead, Blank, Vbr, FsInfo;
    WritableFacts(o, c);
  }

  lemma NewHeads(d: Disk, o: Opts, c: Config, vsn: nat)
    requires Writable(o, c) && |d| == o.vol
    ensures var e := NewDisk(d, o, c, vsn); e[0] == Vbr(o, c, vsn) && (c.t == Fat32 ==> e[1] == FsInfo(c))
  {
    hide Fitting, Pow2, FatHead, Blank, Vbr, FsInfo;
    WritableFacts(o, c);
  }

  lemma NewLayoutSound(o: Opts, c: Config)
    requires Usable(o) && Fitting(o, c) && c.clusters > 0
    ensures var y := Layout(c.t, o.nFat, c.rsv, c.fat, Front(o, c), c.pau, c.clusters + 2);
            y.Sound(o.vol) && y.DataFits(o.vol)
  {
    hide Fitting, Front, Estimate, TableSize, EntryAt, EntryLen, Pow2;
    FittingFacts(o, c);
    RootAligned(o);
    var y := Layout(c.t, o.nFat, c.rsv, c.fat, Front(o, c), c.pau, c.clusters + 2);
    FatLarge(c.fat, TableSize(c.t, c.clusters));
    LastEntryInside(c.t, c.clusters, c.fat);
    TypeLimit(c.clusters);
    FatAreaIs(y);
    InVolume(o.vol - Front(o, c), c.pau);
  }

  /** A volume that was formatted with at least one cluster mounts with the layout that was chosen, which
      is sound; its tables agree, its table is well formed with every cluster free except the root
      directory's on FAT32, and the number of free clusters found is exact or unknown. */
  lemma NewVolumeMounts(d: Disk, o: Opts, c: Config, vsn: nat)
    requires Usable(o) && Fitting(o, c) && c.clusters > 0 && Sectored(d) && |d| == o.vol
    ensures Writable(o, c)
    ensures var e := NewDisk(d, o, c, vsn);
            && Sectored(e) && |e| == o.vol > 1 && Mount(e[0], e[1]) == VolumeOf(o, c, e[1])
            && var v := Mount(e[0], e[1]);
            && v.y.Sound(|e|) && v.y.DataFits(|e|) && v.y.database % o.block == 0
            && (v.y.nFats == 2 ==> forall s :: v.y.InTable(s) ==> e[s + v.y.fsize] == e[s])
            && var f := Entries(TableBytes(e, v.y), v.y, |e|);
            && NewTable(f, c.t) && WellFormed(f, NewChains(c.t)) && Sane(f) && CountsFree(v.free, f)
            && (c.t == Fat32 ==> v.free == FreeCount(f) == c.clusters - 1)
  {
    hide *;
    FittingWritable(o, c);
    WritableFacts(o, c);
    UsableFacts(o);
    NewSectored(d, o, c, vsn);
    NewHeads(d, o, c, vsn);
    NewLayoutSound(o, c);
    var e := NewDisk(d, o, c, vsn);
    TypeMax(o, c);
    SectorSized(e, 1);
    MountsWhatWasFormatted(o, c, vsn, e[1]);
    VolumeFields(o, c, e[1]);
    var v := Mount(e[0], e[1]);
    NewTableEntries(d, e, v.y, o, c, vsn);
    var f := Entries(TableBytes(e, v.y), v.y, |e|);
    NewTableWellFormed(f, c.t);
    NewCount(f, c, v.free);
    FrontAligned(o, c);
    NewMirrors(d, v.y, o, c, vsn);
  }

  lemma NewMirrors(d: Disk, y: Layout, o: Opts, c: Config, vsn: nat)
    requires Writable(o, c) && |d| == o.vol && y.Sound(|d|) && y.fatbase == c.rsv && y.fsize == c.fat && y.nFats == o.nFat
    ensures var e := NewDisk(d, o, c, vsn);
            y.nFats == 2 ==> forall s :: y.InTable(s) ==> e[s + y.fsize] == e[s]
  {
    hide NewSector, Fitting;
    forall s | y.nFats == 2 && y.InTable(s)
      ensures NewDisk(d, o, c, vsn)[s + y.fsize] == NewDisk(d, o, c, vsn)[s]
    {
      NewMirror(d, o, c, vsn, s);
    }
  }

  lemma SectorSized(d: Disk, s: nat)
    requires Sectored(d) && s < |d|
    ensures |d[s]| == SS
  {
  }

  lemma FrontAligned(o: Opts, c: Config)
    requires Usable(o) && Fitting(o, c)
    ensures Front(o, c) % o.block == 0
  {
  }

  lemma TypeMax(o: Opts, c: Config)
    requires Usable(o) && Fitting(o, c)
    ensures c.clusters <= MaxClusters(c.t)
  {
    FittingFacts(o, c);
    TypeLimit(c.clusters);
  }

  lemma VolumeFields(o: Opts, c: Config, i: Bytes)
    requires |i| == SS && (c.t == Fat32 ==> 0 < c.clusters <= MaxClusters(c.t) && i == FsInfo(c))
    ensures var v := VolumeOf(o, c, i);
            && v.Volume? && v.y == Layout(c.t, o.nFat, c.rsv, c.fat, Front(o, c), c.pau, c.clusters + 2)
            && v.free == if c.t == Fat32 then c.clusters - 1 else UNKNOWN
  {
    if c.t == Fat32 {
      FsInfoReads(c);
    }
  }

  lemma NewCount(f: Fat, c: Config, free: nat)
    requires NewTable(f, c.t) && |f| == c.clusters + 2 && c.clusters <= MaxClusters(c.t) && c.clusters > 0
    requires free == if c.t == Fat32 then c.clusters - 1 else UNKNOWN
    ensures CountsFree(free, f) && (c.t == Fat32 ==> free == FreeCount(f))
  {
    NewFreeBelow(f, c.t, |f|);
  }

  // ---------- formatting as a whole ----------

  /** Format a drive as the caller wishes: nothing is written unless a layout fits. */
  method Mkfs(disk: array<Bytes>, w: Wish, block: nat, vsn: nat, bufSectors: nat) returns (r: Answer)
    requires disk.Length < U32 && bufSectors > 0
    modifies disk
    ensures r == Chosen(w, Drive(disk.Length, block))
    ensures !r.Ready? ==> disk[..] == old(disk[..])
    ensures r.Ready? ==> Writable(r.o, r.c) && disk[..] == NewDisk(old(disk[..]), r.o, r.c, vsn)
  {
    hide *;
    r := Choose(w, Drive(disk.Length, block));
    if r.Ready? {
      ChosenFits(w, Drive(disk.Length, block));
      FittingWritable(r.o, r.c);
      FormatVolume(disk, r.o, r.c, vsn, bufSectors);
    }
  }

  /** A layout has a cluster exactly if one fits behind the front part, which ends at a boundary of the
      alignment asked for. */
  lemma LeavesCluster(o: Opts, c: Config)
    requires Usable(o) && Fitting(o, c)
    ensures c.clusters > 0 <==> Front(o, c) + c.pau <= o.vol
    ensures Front(o, c) % o.block == 0
  {
    hide Front, TableSize, Pow2;
    FrontAligned(o, c);
    FittingFacts(o, c);
    SomeQuotient(o.vol - Front(o, c), c.pau);
  }

  lemma SomeQuotient(v: nat, n: nat)
    requires n > 0
    ensures Estimate(v, n) > 0 <==> v >= n
  {
    Quotient(v, n);
    var q: int, r: int := v / n, v % n;
    assert v == n * q + r;
    if q <= 0 {
      assert n * q <= 0;
    } else {
      assert n * q >= n;
    }
  }

  /** Whatever was asked for: a successful format leaves a volume that mounts exactly if a cluster fits
      behind the aligned front part of the drive. */
  lemma FormatThenMount(d: Disk, w: Wish, block: nat, vsn: nat)
    requires Sectored(d) && |d| < U32 && Chosen(w, Drive(|d|, block)).Ready?
    ensures var r := Chosen(w, Drive(|d|, block));
            && Writable(r.o, r.c) && |d| > 1
            && var e := NewDisk(d, r.o, r.c, vsn);
            && |e[0]| == |e[1]| == SS
            && (Mount(e[0], e[1]) == if r.c.clusters > 0 then VolumeOf(r.o, r.c, e[1]) else NoFilesystem)
            && (r.c.clusters > 0 <==> Front(r.o, r.c) + r.c.pau <= r.o.vol) && r.o.vol == |d| && Front(r.o, r.c) % r.o.block == 0
  {
    hide *;
    var r := Chosen(w, Drive(|d|, block));
    ChosenFits(w, Drive(|d|, block));
    ChosenVol(w, Drive(|d|, block));
    LeavesCluster(r.o, r.c);
    FittingWritable(r.o, r.c);
    WritableFacts(r.o, r.c);
    NewSectored(d, r.o, r.c, vsn);
    NewHeads(d, r.o, r.c, vsn);
    var e := NewDisk(d, r.o, r.c, vsn);
    SectorSized(e, 0);
    SectorSized(e, 1);
    MountsWhatWasFormatted(r.o, r.c, vsn, e[1]);
  }

  lemma ChosenVol(w: Wish, d: Drive)
    ensures Chosen(w, d).Ready? ==> Chosen(w, d).o.vol == d.sectors
  {
    hide Plan, Pow2;
  }

  /** Formatting can succeed without leaving a cluster: 32770 sectors aligned to 32768 leave two, less than
      a cluster of 16. */
  lemma NoClusterLeft()
    ensures var w := Wish(true, false, 0x8000, 1, 512, 8192);
            Chosen(w, Drive(32770, 1)) == Ready(Opts(32770, 0x8000, 1, 512, 16, true, false), Config(Fat12, 16, 1, 32735, 32, 0))
  {
    PowersOfTwo();
    var w := Wish(true, false, 0x8000, 1, 512, 8192);
    var o := Opts(32770, 0x8000, 1, 512, 16, true, false);
    assert Normal(w, Drive(32770, 1)) == o;
    TooSmallAttempt(o);
  }

  lemma TooSmallAttempt(o: Opts)
    requires o == Opts(32770, 0x8000, 1, 512, 16, true, false)
    ensures Attempt16(o, 16) == Done(Config(Fat12, 16, 1, 32735, 32, 0))
  {
    assert Estimate(32770, 16) == 2048;
    assert FatBytes(2048) == 3075 && Fat0(2048) == 7;
    assert Pad(40, 0x8000) == 32728;
    assert Clusters(32770, 32768, 16) == 0;
  }

  lemma PowersOfTwo()
    ensures Pow2(0x8000) && Pow2(8192)
  {
    assert Pow2(16) && Pow2(128);
    assert Pow2(1024);
    assert Pow2(8192);
  }
}
