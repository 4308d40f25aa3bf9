/** The boot sector of a FAT volume and its FSINFO sector: what formatting writes and what mounting
    reads back.  The volume starts at sector 0. */
module FatBoot {
  import opened Words
  import opened FatEntry
  import opened FatVolume
  import opened FatContent
  import opened FatFormat

  function Le16(v: nat): (b: Bytes)
    ensures |b| == 2
  {
    [v % 256, v / 256 % 256]
  }

  function Le32(v: nat): (b: Bytes)
    ensures |b| == 4
  {
    [v % 256, v / 256 % 256, v / 0x10000 % 256, v / 0x100_0000 % 256]
  }

  function Ld16(s: Bytes, at: nat): (n: nat)
    requires at + 2 <= |s|
    ensures n < 0x10000
  {
    Word16(s[at], s[at + 1])
  }

  function Ld32(s: Bytes, at: nat): (n: nat)
    requires at + 4 <= |s|
    ensures n < U32
  {
    Word32(s[at], s[at + 1], s[at + 2], s[at + 3])
  }

  lemma Read16(s: Bytes, at: nat, v: nat)
    requires at + 2 <= |s| && v < 0x10000 && s[at] == v % 256 && s[at + 1] == v / 256 % 256
    ensures Ld16(s, at) == v
  {
  }

  lemma Read32(s: Bytes, at: nat, v: nat)
    requires at + 4 <= |s| && v < U32 && s[at] == v % 256 && s[at + 1] == v / 256 % 256
    requires s[at + 2] == v / 0x10000 % 256 && s[at + 3] == v / 0x100_0000 % 256
    ensures Ld32(s, at) == v
  {
    var q1, q2, q3 := v / 256, v / 0x10000, v / 0x100_0000;
    assert q2 == q1 / 256 && q3 == q2 / 256;
  }

  /** A sector of zeros. */
  function Blank(): (s: Bytes)
    ensures |s| == SS && forall i :: 0 <= i < SS ==> s[i] == 0
  {
    seq(SS, i => 0)
  }

  const JUMP: Bytes := [0xEB, 0xFE, 0x90, 77, 83, 68, 79, 83, 53, 46, 48]
  const NO_NAME: Bytes := [78, 79, 32, 78, 65, 77, 69, 32, 32, 32, 32]
  const FAT32_: Bytes := [70, 65, 84, 51, 50, 32, 32, 32]
  const FAT_: Bytes := [70, 65, 84, 32, 32, 32, 32, 32]

  /** The part of a boot sector that all FAT types share. */
  function Head(o: Opts, c: Config): (s: Bytes)
    ensures |s| == SS
  {
    var s := Overwrite(Blank(), 0, JUMP);
    var s := Overwrite(s, 11, Le16(SS));
    var s := Overwrite(s, 13, [c.pau % 256]);
    var s := Overwrite(s, 14, Le16(c.rsv));
    var s := Overwrite(s, 16, [o.nFat % 256]);
    var s := Overwrite(s, 17, Le16(if c.t == Fat32 then 0 else o.nRoot));
    var s := if o.vol < 0x10000 then Overwrite(s, 19, Le16(o.vol)) else Overwrite(s, 32, Le32(o.vol));
    var s := Overwrite(s, 21, [0xF8]);
    var s := Overwrite(s, 24, Le16(63));
    var s := Overwrite(s, 26, Le16(255));
    Overwrite(s, 28, Le32(0))
  }

  /** The rest of a boot sector; `vsn` is the volume's serial number. */
  function Vbr(o: Opts, c: Config, vsn: nat): (s: Bytes)
    ensures |s| == SS
  {
    var s := Head(o, c);
    var s :=
      if c.t == Fat32 then
        var s := Overwrite(s, 67, Le32(vsn));
        var s := Overwrite(s, 36, Le32(c.fat));
        var s := Overwrite(s, 44, Le32(2));
        var s := Overwrite(s, 48, Le16(1));
        var s := Overwrite(s, 50, Le16(6));
        var s := Overwrite(s, 64, [0x80]);
        var s := Overwrite(s, 66, [0x29]);
        Overwrite(s, 71, NO_NAME + FAT32_)
      else
        var s := Overwrite(s, 39, Le32(vsn));
        var s := Overwrite(s, 22, Le16(c.fat));
        var s := Overwrite(s, 36, [0x80]);
        var s := Overwrite(s, 38, [0x29]);
        Overwrite(s, 43, NO_NAME + FAT_);
    Overwrite(s, 510, Le16(0xAA55))
  }

  /** The FSINFO sector of a new FAT32 volume. */
  function FsInfo(c: Config): (s: Bytes)
    requires c.clusters > 0
    ensures |s| == SS
  {
    var s := Overwrite(Blank(), 0, Le32(0x4161_5252));
    var s := Overwrite(s, 484, Le32(0x6141_7272));
    var s := Overwrite(s, 488, Le32(c.clusters - 1));
    var s := Overwrite(s, 492, Le32(2));
    Overwrite(s, 510, Le16(0xAA55))
  }

  /** `v` stands as a little-endian word at `at`. */
  predicate Has16(s: Bytes, at: nat, v: nat) {
    at + 2 <= |s| && s[at] == v % 256 && s[at + 1] == v / 256 % 256
  }

  predicate Has32(s: Bytes, at: nat, v: nat) {
    at + 4 <= |s| && s[at] == v % 256 && s[at + 1] == v / 256 % 256 && s[at + 2] == v / 0x10000 % 256
    && s[at + 3] == v / 0x100_0000 % 256
  }

  lemma HeadBytes(o: Opts, c: Config)
    ensures var s := Head(o, c);
            && s[0] == 0xEB && Has16(s, 11, SS) && s[13] == c.pau % 256 && Has16(s, 14, c.rsv)
            && forall i :: 36 <= i < SS ==> s[i] == 0
  {
    hide Le16, Le32, Blank, Overwrite;
    LeIs(SS);
    LeIs(c.rsv);
  }

  lemma HeadCounts(o: Opts, c: Config)
    ensures var s := Head(o, c);
            s[16] == o.nFat % 256 && Has16(s, 17, if c.t == Fat32 then 0 else o.nRoot) && Has16(s, 22, 0)
  {
    hide Le16, Le32, Blank, Overwrite;
    LeIs(if c.t == Fat32 then 0 else o.nRoot);
  }

  lemma HeadSize(o: Opts, c: Config)
    ensures var s := Head(o, c);
            Has16(s, 19, if o.vol < 0x10000 then o.vol else 0) && (o.vol >= 0x10000 ==> Has32(s, 32, o.vol))
  {
    hide Le16, Le32, Blank, Overwrite;
    LeIs(o.vol);
  }

  lemma LeIs(v: nat)
    ensures Le16(v)[0] == v % 256 && Le16(v)[1] == v / 256 % 256
    ensures var b := Le32(v);
            b[0] == v % 256 && b[1] == v / 256 % 256 && b[2] == v / 0x10000 % 256 && b[3] == v / 0x100_0000 % 256
  {
  }

  /** What is found in the boot sector. */
  ghost predicate BootFields(s: Bytes, o: Opts, c: Config) {
    && |s| == SS && s[0] == 0xEB && Has16(s, 11, SS) && s[13] == c.pau % 256 && Has16(s, 14, c.rsv) && s[16] == o.nFat % 256
    && Has16(s, 17, if c.t == Fat32 then 0 else o.nRoot)
    && Has16(s, 19, if o.vol < 0x10000 then o.vol else 0) && (o.vol >= 0x10000 ==> Has32(s, 32, o.vol))
    && Has16(s, 22, if c.t == Fat32 then 0 else c.fat) && Has16(s, 510, 0xAA55)
    && (if c.t == Fat32 then
          Has32(s, 36, c.fat) && Has16(s, 42, 0) && Has32(s, 44, 2) && Has16(s, 48, 1) && s[82..90] == FAT32_
        else s[82] == 0)
  }

  lemma VbrFields(o: Opts, c: Config, vsn: nat)
    ensures BootFields(Vbr(o, c, vsn), o, c)
  {
    hide Head, Le16, Le32, Overwrite;
    HeadBytes(o, c);
    HeadCounts(o, c);
    HeadSize(o, c);
    LeIs(c.fat);
    LeIs(2);
    LeIs(1);
    LeIs(0xAA55);
  }

  /** Text `t` stands at `at`. */
  ghost predicate Says(s: Bytes, at: nat, t: string) {
    at + |t| <= |s| && forall i :: at <= i < at + |t| ==> s[i] == t[i - at] as int
  }

  ghost predicate ZeroFrom(s: Bytes, at: nat, end: nat) {
    end <= |s| && forall i :: at <= i < end ==> s[i] == 0
  }

  /** What else stands in the boot sector, which mounting does not look at: a jump to itself, names, the fixed medium and
      a geometry of 63 sectors and 255 heads, drive number, extended signature, serial number, the backup in sector
      6; the rest is zero. */
  ghost predicate BootRest(s: Bytes, c: Config, vsn: nat) {
    && |s| == SS && s[0] == 0xEB && s[1] == 0xFE && s[2] == 0x90 && Says(s, 3, "MSDOS5.0") && s[21] == 0xF8
    && Has16(s, 24, 63) && Has16(s, 26, 255) && ZeroFrom(s, 28, 32)
    && if c.t == Fat32 then
         && ZeroFrom(s, 40, 44) && Has16(s, 50, 6) && ZeroFrom(s, 52, 64) && s[64] == 0x80 && s[65] == 0 && s[66] == 0x29
         && Has32(s, 67, vsn) && Says(s, 71, "NO NAME    ") && Says(s, 82, "FAT32   ") && ZeroFrom(s, 90, 510)
       else
         && s[36] == 0x80 && s[37] == 0 && s[38] == 0x29
         && Has32(s, 39, vsn) && Says(s, 43, "NO NAME    ") && Says(s, 54, "FAT     ") && ZeroFrom(s, 62, 510)
  }

  lemma HeadStart(o: Opts, c: Config)
    ensures var s := Head(o, c); s[0] == 0xEB && s[1] == 0xFE && s[2] == 0x90 && Says(s, 3, "MSDOS5.0")
  {
    hide Le16, Le32, Blank, Overwrite;
  }

  lemma HeadDisk(o: Opts, c: Config)
    ensures var s := Head(o, c); s[21] == 0xF8 && Has16(s, 24, 63) && Has16(s, 26, 255) && ZeroFrom(s, 28, 32) && ZeroFrom(s, 36, SS)
  {
    hide Le16, Le32, Blank, Overwrite;
    LeIs(63);
    LeIs(255);
    LeIs(0);
  }

  lemma Names()
    ensures |NO_NAME| == 11 && forall i :: 0 <= i < 11 ==> NO_NAME[i] == "NO NAME    "[i] as int
    ensures |FAT32_| == |FAT_| == 8 && forall i :: 0 <= i < 8 ==> FAT32_[i] == "FAT32   "[i] as int && FAT_[i] == "FAT     "[i] as int
  {
  }

  /** Behind the head, on FAT32. */
  lemma Rest32(o: Opts, c: Config, vsn: nat)
    requires c.t == Fat32
    ensures var s := Vbr(o, c, vsn);
            && (forall i :: 0 <= i < 36 ==> s[i] == Head(o, c)[i])
            && ZeroFrom(s, 40, 44) && Has16(s, 50, 6) && ZeroFrom(s, 52, 64) && s[64] == 0x80 && s[65] == 0 && s[66] == 0x29
            && Has32(s, 67, vsn) && ZeroFrom(s, 90, 510)
  {
    hide Head, Le16, Le32, Overwrite;
    Names();
    HeadDisk(o, c);
    LeIs(vsn);
    LeIs(6);
  }

  lemma Names32(o: Opts, c: Config, vsn: nat)
    requires c.t == Fat32
    ensures var s := Vbr(o, c, vsn); Says(s, 71, "NO NAME    ") && Says(s, 82, "FAT32   ")
  {
    hide Head, Le16, Le32, Overwrite;
    Names();
  }

  /** Behind the head, on FAT12 and FAT16. */
  lemma Rest16(o: Opts, c: Config, vsn: nat)
    requires c.t != Fat32
    ensures var s := Vbr(o, c, vsn);
            && (forall i :: 0 <= i < 36 && i != 22 && i != 23 ==> s[i] == Head(o, c)[i])
            && s[36] == 0x80 && s[37] == 0 && s[38] == 0x29 && Has32(s, 39, vsn) && ZeroFrom(s, 62, 510)
  {
    hide Head, Le16, Le32, Overwrite;
    Names();
    HeadDisk(o, c);
    LeIs(vsn);
  }

  lemma Names16(o: Opts, c: Config, vsn: nat)
    requires c.t != Fat32
    ensures var s := Vbr(o, c, vsn); Says(s, 43, "NO NAME    ") && Says(s, 54, "FAT     ")
  {
    hide Head, Le16, Le32, Overwrite;
    Names();
  }

  lemma VbrRest(o: Opts, c: Config, vsn: nat)
    ensures BootRest(Vbr(o, c, vsn), c, vsn)
  {
    hide Head, Vbr;
    HeadStart(o, c);
    HeadDisk(o, c);
    if c.t == Fat32 {
      Rest32(o, c, vsn);
      Names32(o, c, vsn);
    } else {
      Rest16(o, c, vsn);
      Names16(o, c, vsn);
    }
  }

  // ---------- recognizing a boot sector ----------

  /** The size checks by which a boot sector without FAT32 signature is recognized. */
  predicate Proper(s: Bytes)
    requires |s| == SS
  {
    && Ld16(s, 11) == SS && s[13] != 0 && Pow2(s[13]) && Ld16(s, 14) != 0 && 1 <= s[16] <= 2 && Ld16(s, 17) != 0
    && (Ld16(s, 19) >= 128 || Ld32(s, 32) >= 0x10000) && Ld16(s, 22) != 0
  }

  /** 0: a FAT boot sector, 2: another valid boot sector, 3: none. */
  function CheckFs(s: Bytes): nat
    requires |s| == SS
  {
    var signed := Ld16(s, 510) == 0xAA55;
    var jump := s[0] == 0xEB || s[0] == 0xE9 || s[0] == 0xE8;
    if jump && ((signed && s[82..90] == FAT32_) || Proper(s)) then 0 else if signed then 2 else 3
  }

  // ---------- mounting ----------

  /** What mounting finds out: where table and clusters lie, the root directory (its sector, or its
      cluster on FAT32), and the clusters said to be free and last allocated. */
  datatype Mounted = NoFilesystem
                   | Volume(y: Layout, rootEntries: nat, dirbase: nat, free: nat, last: nat, fsInfo: bool)

  const UNKNOWN: nat := 0xFFFF_FFFF

  /** Sectors of one table. */
  function FatSize(s: Bytes): (n: nat)
    requires |s| == SS
    ensures n < U32
  {
    if Ld16(s, 22) != 0 then Ld16(s, 22) else Ld32(s, 36)
  }

  function TotalSectors(s: Bytes): nat
    requires |s| == SS
  {
    if Ld16(s, 19) != 0 then Ld16(s, 19) else Ld32(s, 32)
  }

  /** A sum of two numbers in 32-bit arithmetic. */
  function Wrap32(x: nat): (w: nat)
    requires x < 2 * U32
    ensures w < U32
  {
    if x < U32 then x else x - U32
  }

  /** Sectors of all tables, one or two, in 32-bit arithmetic. */
  function FatsWrapped(fat: nat, n: nat): (w: nat)
    requires fat < U32
    ensures w < U32
  {
    Wrap32(AllFats(fat, n))
  }

  /** Sectors in front of the data area, in 32-bit arithmetic. */
  function SysSectors(s: Bytes): (n: nat)
    requires |s| == SS
    ensures n < U32
  {
    Wrap32(Ld16(s, 14) + FatsWrapped(FatSize(s), s[16]) + Ld16(s, 17) / 16)
  }

  function ClusterCount(s: Bytes): nat
    requires |s| == SS && s[13] != 0 && SysSectors(s) <= TotalSectors(s)
  {
    Estimate(TotalSectors(s) - SysSectors(s), s[13])
  }

  /** The checks up to the number of clusters. */
  predicate Plausible(s: Bytes)
    requires |s| == SS
  {
    && Ld16(s, 11) == SS && 1 <= s[16] <= 2 && s[13] != 0 && Pow2(s[13]) && Ld16(s, 17) % 16 == 0 && Ld16(s, 14) != 0
    && SysSectors(s) <= TotalSectors(s) && 0 < ClusterCount(s) <= MaxClusters(Fat32)
  }

  /** The checks that depend on the FAT type. */
  predicate TypeChecks(s: Bytes, t: FatType)
    requires |s| == SS
  {
    if t == Fat32 then Ld16(s, 42) == 0 && Ld16(s, 17) == 0 else Ld16(s, 17) != 0
  }

  function LayoutOf(s: Bytes): Layout
    requires |s| == SS && Plausible(s)
  {
    var n := ClusterCount(s);
    Layout(TypeFor(n), s[16], Ld16(s, 14), FatSize(s), SysSectors(s), s[13], n + 2)
  }

  /** The FSINFO sector's signatures. */
  predicate InfoSigned(i: Bytes)
    requires |i| == SS
  {
    Ld32(i, 0) == 0x4161_5252 && Ld32(i, 484) == 0x6141_7272 && Ld32(i, 508) == 0xAA55_0000
  }

  /** Mount a volume by its boot sector `s` and the sector `i` behind it. */
  function Mount(s: Bytes, i: Bytes): Mounted
    requires |s| == |i| == SS
  {
    if CheckFs(s) != 0 || !Plausible(s) then NoFilesystem
    else
      var y := LayoutOf(s);
      if !TypeChecks(s, y.t) || y.fsize < (TableSize(y.t, ClusterCount(s)) + SS - 1) / SS then NoFilesystem
      else
        var info := y.t == Fat32 && Ld16(s, 48) == 1;
        var known := info && InfoSigned(i);
        Volume(y, Ld16(s, 17), if y.t == Fat32 then Ld32(s, 44) else Wrap32(y.fatbase + FatsWrapped(FatSize(s), s[16])),
               if known then Ld32(i, 488) else UNKNOWN, if known then Ld32(i, 492) else UNKNOWN, info)
  }

  /** What the fields of a formatted volume read as. */
  lemma FieldValues(s: Bytes, o: Opts, c: Config)
    requires BootFields(s, o, c) && Usable(o) && Fitting(o, c)
    ensures Ld16(s, 510) == 0xAA55 && s[0] == 0xEB && Ld16(s, 11) == SS && s[13] == c.pau && Ld16(s, 14) == c.rsv
    ensures s[16] == o.nFat && Ld16(s, 17) == (if c.t == Fat32 then 0 else o.nRoot)
    ensures FatSize(s) == c.fat && TotalSectors(s) == o.vol
    ensures if c.t == Fat32 then Ld16(s, 42) == 0 && Ld32(s, 44) == 2 && Ld16(s, 48) == 1 && Ld16(s, 22) == 0
            else Ld16(s, 22) == c.fat && s[82] == 0
    ensures Ld16(s, 19) == (if o.vol < 0x10000 then o.vol else 0) && (o.vol >= 0x10000 ==> Ld32(s, 32) == o.vol)
  {
    hide Fitting, Pow2, Ld16, Ld32, Front;
    FittingFacts(o, c);
    Read16(s, 510, 0xAA55);
    Read16(s, 11, SS);
    Read16(s, 14, c.rsv);
    Read16(s, 17, if c.t == Fat32 then 0 else o.nRoot);
    Read16(s, 19, if o.vol < 0x10000 then o.vol else 0);
    Read16(s, 22, if c.t == Fat32 then 0 else c.fat);
    if o.vol >= 0x10000 {
      Read32(s, 32, o.vol);
    }
    if c.t == Fat32 {
      Read32(s, 36, c.fat);
      Read16(s, 42, 0);
      Read32(s, 44, 2);
      Read16(s, 48, 1);
    }
  }

  lemma FittingFacts(o: Opts, c: Config)
    requires Usable(o) && Fitting(o, c)
    ensures 0 < c.pau <= 128 && Pow2(c.pau) && 0 < c.rsv < 0x10000 && Front(o, c) <= o.vol < U32 && 0 < c.fat < U32
    ensures c.t != Fat32 ==> c.fat < 0x10000 && c.dir == o.nRoot / 16
    ensures c.t == Fat32 ==> c.dir == 0
    ensures c.clusters == Estimate(o.vol - Front(o, c), c.pau) <= MaxClusters(Fat32) && c.t == TypeFor(c.clusters)
    ensures TableSize(c.t, c.clusters) <= c.fat * SS
    ensures Front(o, c) == c.rsv + AllFats(c.fat, o.nFat) + c.dir
  {
    hide TableSize, TypeFor;
  }

  /** The volume that a layout describes. */
  function VolumeOf(o: Opts, c: Config, i: Bytes): Mounted
    requires |i| == SS
  {
    var known := c.t == Fat32 && InfoSigned(i);
    Volume(Layout(c.t, o.nFat, c.rsv, c.fat, Front(o, c), c.pau, c.clusters + 2),
           if c.t == Fat32 then 0 else o.nRoot,
           if c.t == Fat32 then 2 else c.rsv + AllFats(c.fat, o.nFat),
           if known then Ld32(i, 488) else UNKNOWN, if known then Ld32(i, 492) else UNKNOWN, c.t == Fat32)
  }

  lemma SysSectorsOf(s: Bytes, o: Opts, c: Config)
    requires |s| == SS && Ld16(s, 14) == c.rsv && FatSize(s) == c.fat && s[16] == o.nFat && Ld16(s, 17) / 16 == c.dir
    requires Front(o, c) < U32 && c.fat < U32
    ensures SysSectors(s) == Front(o, c) && FatsWrapped(FatSize(s), s[16]) == AllFats(c.fat, o.nFat)
  {
    hide Ld16, Ld32, FatSize, AllFats, FatsWrapped;
    FatsModulo(c.fat, o.nFat);
  }

  lemma Recognized(s: Bytes, o: Opts, c: Config)
    requires BootFields(s, o, c) && Usable(o) && Fitting(o, c)
    ensures CheckFs(s) == 0
  {
    hide Fitting, Ld16, Ld32, FatSize, Pow2, Front, TotalSectors;
    FieldValues(s, o, c);
    FittingFacts(o, c);
    assert FAT32_[0] == 70;
  }

  /** Mounting what formatting wrote succeeds exactly if a cluster was left, and recovers the layout. */
  lemma MountsWhatWasFormatted(o: Opts, c: Config, vsn: nat, i: Bytes)
    requires Usable(o) && Fitting(o, c) && |i| == SS
    ensures Mount(Vbr(o, c, vsn), i) == if c.clusters > 0 then VolumeOf(o, c, i) else NoFilesystem
  {
    hide Fitting, Ld16, Ld32, FatSize, BootFields, Pow2, Front, TotalSectors, SysSectors, CheckFs, Vbr, TableSize, InfoSigned,
         Estimate, Proper;
    var s := Vbr(o, c, vsn);
    VbrFields(o, c, vsn);
    FieldValues(s, o, c);
    FittingFacts(o, c);
    RootSize(o, c);
    SysSectorsOf(s, o, c);
    Recognized(s, o, c);
    RootAligned(o);
    FatLarge(c.fat, TableSize(c.t, c.clusters));
  }

  lemma RootSize(o: Opts, c: Config)
    requires Usable(o) && Fitting(o, c)
    ensures (if c.t == Fat32 then 0 else o.nRoot) / 16 == c.dir
  {
  }

  lemma RootAligned(o: Opts)
    requires Usable(o)
    ensures o.nRoot % 16 == 0 && 1 <= o.nFat <= 2 && o.nRoot > 0
  {
  }

  lemma FatLarge(fat: nat, bytes: nat)
    requires bytes <= fat * SS
    ensures fat >= (bytes + SS - 1) / SS
  {
  }

  /** Sectors in front of the data area, without wrap-around. */
  function SysExact(s: Bytes): nat
    requires |s| == SS
  {
    Ld16(s, 14) + AllFats(FatSize(s), s[16]) + Ld16(s, 17) / 16
  }

  lemma SysWraps(s: Bytes)
    requires |s| == SS && 1 <= s[16] <= 2
    ensures SysExact(s) < U32 ==> SysSectors(s) == SysExact(s)
    ensures SysExact(s) >= U32 ==> SysSectors(s) < Ld16(s, 14) + AllFats(FatSize(s), s[16])
  {
    hide Ld16, FatSize, FatsWrapped, AllFats;
    var f, w, a, b := AllFats(FatSize(s), s[16]), FatsWrapped(FatSize(s), s[16]), Ld16(s, 14), Ld16(s, 17) / 16;
    Loads(s);
    FatsModulo(FatSize(s), s[16]);
  }

  lemma FatsModulo(fat: nat, n: nat)
    requires fat < U32
    ensures FatsWrapped(fat, n) == if AllFats(fat, n) < U32 then AllFats(fat, n) else AllFats(fat, n) - U32
  {
  }

  lemma Loads(s: Bytes)
    requires |s| == SS
    ensures Ld16(s, 14) < 0x10000 && Ld16(s, 17) < 0x10000 && FatSize(s) < U32 && TotalSectors(s) < U32
  {
  }

  /** The last entry of a table of the needed size lies inside it. */
  lemma LastEntryInside(t: FatType, n: nat, fsize: nat)
    requires n > 0 && fsize >= (TableSize(t, n) + SS - 1) / SS
    ensures EntryAt(t, n + 1) + EntryLen(t) <= fsize * SS
  {
    assert EntryAt(t, n + 1) + EntryLen(t) <= TableSize(t, n);
  }

  /** A mounted volume has a sound layout exactly if the sectors in front of its data did not wrap around;
      then all its clusters lie inside the volume. */
  lemma MountIsSound(s: Bytes, i: Bytes, sectors: nat)
    requires |s| == |i| == SS && Mount(s, i).Volume? && TotalSectors(s) <= sectors
    ensures Mount(s, i).y.Sound(sectors) <==> SysExact(s) < U32
    ensures SysExact(s) < U32 ==> Mount(s, i).y.DataFits(sectors)
  {
    hide Ld16, Ld32, FatSize, TotalSectors, SysSectors, CheckFs, AllFats, TableSize, InfoSigned, EntryAt, EntryLen, Pow2, SysExact;
    var y, n := Mount(s, i).y, ClusterCount(s);
    SysWraps(s);
    SysExactIs(s);
    LastEntryInside(y.t, n, y.fsize);
    TypeLimit(n);
    FatAreaIs(y);
    InVolume(TotalSectors(s) - SysSectors(s), s[13]);
  }

  /** A boot sector of a FAT32 volume of 70032 sectors that claims two tables of 0x8000_0000 sectors
      each. */
  function Wrapping(): (s: Bytes)
    ensures |s| == SS
  {
    seq(SS, i requires 0 <= i < SS =>
      match i
      case 0 => 0xEB
      case 12 => 2
      case 13 => 1
      case 14 => 32
      case 16 => 2
      case 32 => 0x90
      case 33 => 0x11
      case 34 => 1
      case 39 => 0x80
      case 510 => 0x55
      case 511 => 0xAA
      case _ => if 82 <= i < 90 then FAT32_[i - 82] else 0)
  }

  lemma WrappingBytes()
    ensures var s := Wrapping();
            && s[0] == 0xEB && s[11] == 0 && s[12] == 2 && s[13] == 1 && s[14] == 32 && s[15] == 0 && s[16] == 2
            && s[17] == s[18] == s[19] == s[20] == s[22] == s[23] == 0 && s[32] == 0x90 && s[33] == 0x11 && s[34] == 1 && s[35] == 0
            && s[36] == s[37] == s[38] == 0 && s[39] == 0x80 && s[42] == s[43] == s[48] == s[49] == 0 && s[510] == 0x55 && s[511] == 0xAA
    ensures Wrapping()[82..90] == FAT32_
  {
  }

  lemma WrappingFields()
    ensures var s := Wrapping();
            && s[0] == 0xEB && s[13] == 1 && s[16] == 2 && Ld16(s, 510) == 0xAA55 && s[82..90] == FAT32_
            && Ld16(s, 11) == SS && Ld16(s, 14) == 32 && Ld16(s, 17) == Ld16(s, 19) == Ld16(s, 22) == Ld16(s, 42) == Ld16(s, 48) == 0
            && Ld32(s, 32) == 70032 && Ld32(s, 36) == 0x8000_0000
  {
    hide Wrapping;
    WrappingBytes();
  }

  /** It is accepted, although the sectors in front of its data make no sense. */
  lemma WrappingMounts(i: Bytes)
    requires |i| == SS
    ensures Mount(Wrapping(), i).Volume? && SysExact(Wrapping()) >= U32 && TotalSectors(Wrapping()) == 70032
    ensures !Mount(Wrapping(), i).y.Sound(70032)
  {
    hide Wrapping, Ld16, Ld32;
    var s := Wrapping();
    WrappingFields();
    assert FatSize(s) == 0x8000_0000 && SysSectors(s) == 32;
    QuotientOne(70000);
    assert ClusterCount(s) == 70000;
    MountIsSound(s, i, 70032);
  }

  lemma QuotientOne(v: nat)
    ensures v / 1 == v && Pow2(1)
  {
  }

  lemma SysExactIs(s: Bytes)
    requires |s| == SS
    ensures SysExact(s) >= Ld16(s, 14) + AllFats(FatSize(s), s[16])
  {
  }

  lemma TypeLimit(n: nat)
    ensures n <= MaxClusters(Fat32) ==> n <= MaxClusters(TypeFor(n))
  {
  }

  lemma FatAreaIs(y: Layout)
    ensures y.FatArea() == AllFats(y.fsize, y.nFats)
  {
  }

  lemma InVolume(room: nat, csize: nat)
    requires csize > 0
    ensures csize * Estimate(room, csize) <= room
  {
    Quotient(room, csize);
  }

  // ---------- the code that reads and writes these sectors ----------

  method Store(buf: array<Byte>, at: nat, w: Bytes)
    requires buf.Length == SS && at + |w| <= SS
    modifies buf
    ensures buf[..] == Overwrite(old(buf[..]), at, w)
  {
    var k := 0;
    while k < |w|
      invariant k <= |w|
      invariant forall i :: 0 <= i < SS ==> buf[i] == if at <= i < at + k then w[i - at] else old(buf[i])
    {
      buf[at + k] := w[k];
      k := k + 1;
    }
  }

  method ClearBuffer(buf: array<Byte>)
    requires buf.Length == SS
    modifies buf
    ensures buf[..] == Blank()
  {
    var k := 0;
    while k < SS
      invariant k <= SS && forall i :: 0 <= i < k ==> buf[i] == 0
    {
      buf[k] := 0;
      k := k + 1;
    }
  }

  /** Fill a buffer with the boot sector. */
  method WriteVbr(buf: array<Byte>, o: Opts, c: Config, vsn: nat)
    requires buf.Length == SS
    modifies buf
    ensures buf[..] == Vbr(o, c, vsn)
  {
    hide Overwrite, Blank, Le16, Le32;
    ClearBuffer(buf);
    Store(buf, 0, JUMP);
    Store(buf, 11, Le16(SS));
    Store(buf, 13, [c.pau % 256]);
    Store(buf, 14, Le16(c.rsv));
    Store(buf, 16, [o.nFat % 256]);
    Store(buf, 17, Le16(if c.t == Fat32 then 0 else o.nRoot));
    if o.vol < 0x10000 {
      Store(buf, 19, Le16(o.vol));
    } else {
      Store(buf, 32, Le32(o.vol));
    }
    Store(buf, 21, [0xF8]);
    Store(buf, 24, Le16(63));
    Store(buf, 26, Le16(255));
    Store(buf, 28, Le32(0));
    assert buf[..] == Head(o, c);
    WriteTail(buf, o, c, vsn);
  }

  method WriteTail(buf: array<Byte>, o: Opts, c: Config, vsn: nat)
    requires buf.Length == SS && buf[..] == Head(o, c)
    modifies buf
    ensures buf[..] == Vbr(o, c, vsn)
  {
    hide Overwrite, Head, Le16, Le32;
    if c.t == Fat32 {
      Store(buf, 67, Le32(vsn));
      Store(buf, 36, Le32(c.fat));
      Store(buf, 44, Le32(2));
      Store(buf, 48, Le16(1));
      Store(buf, 50, Le16(6));
      Store(buf, 64, [0x80]);
      Store(buf, 66, [0x29]);
      Store(buf, 71, NO_NAME + FAT32_);
    } else {
      Store(buf, 39, Le32(vsn));
      Store(buf, 22, Le16(c.fat));
      Store(buf, 36, [0x80]);
      Store(buf, 38, [0x29]);
      Store(buf, 43, NO_NAME + FAT_);
    }
    Store(buf, 510, Le16(0xAA55));
  }

  method WriteFsInfo(buf: array<Byte>, c: Config)
    requires buf.Length == SS && c.clusters > 0
    modifies buf
    ensures buf[..] == FsInfo(c)
  {
    hide Overwrite, Blank, Le16, Le32;
    ClearBuffer(buf);
    Store(buf, 0, Le32(0x4161_5252));
    Store(buf, 484, Le32(0x6141_7272));
    Store(buf, 488, Le32(c.clusters - 1));
    Store(buf, 492, Le32(2));
    Store(buf, 510, Le16(0xAA55));
  }

  /** Mount the volume on `disk`, field by field as the boot sector is read. */
  method MountVolume(disk: Disk) returns (r: Mounted)
    requires Sectored(disk) && |disk| > 1
    ensures r == Mount(disk[0], disk[1])
  {
    hide Ld16, Ld32, CheckFs, Pow2, InfoSigned, TableSize, Estimate, AllFats, FatsWrapped, Wrap32, TypeFor, MaxClusters;
    var s := disk[0];
    r := NoFilesystem;
    if CheckFs(s) != 0 || Ld16(s, 11) != SS {
      return;
    }
    var fasize := if Ld16(s, 22) != 0 then Ld16(s, 22) else Ld32(s, 36);
    var fsize := fasize;
    var nFats := s[16];
    if nFats != 1 && nFats != 2 {
      return;
    }
    fasize := FatsWrapped(fasize, nFats);
    var csize := s[13];
    if csize == 0 || !Pow2(csize) {
      return;
    }
    var rootEntries := Ld16(s, 17);
    if rootEntries % 16 != 0 {
      return;
    }
    var tsect := if Ld16(s, 19) != 0 then Ld16(s, 19) else Ld32(s, 32);
    var nrsv := Ld16(s, 14);
    if nrsv == 0 {
      return;
    }
    var sysect := Wrap32(nrsv + fasize + rootEntries / 16);
    if tsect < sysect {
      return;
    }
    var nclst := Estimate(tsect - sysect, csize);
    if nclst == 0 || nclst > MaxClusters(Fat32) {
      return;
    }
    var t := TypeFor(nclst);
    var dirbase := Wrap32(nrsv + fasize);
    if t == Fat32 {
      if Ld16(s, 42) != 0 || rootEntries != 0 {
        return;
      }
      dirbase := Ld32(s, 44);
    } else if rootEntries == 0 {
      return;
    }
    if fsize < (TableSize(t, nclst) + SS - 1) / SS {
      return;
    }
    var free, last, info := UNKNOWN, UNKNOWN, t == Fat32 && Ld16(s, 48) == 1;
    if info && InfoSigned(disk[1]) {
      free, last := Ld32(disk[1], 488), Ld32(disk[1], 492);
    }
    r := Volume(Layout(t, nFats, nrsv, fsize, sysect, csize, nclst + 2), rootEntries, dirbase, free, last, info);
  }

  /** The FSINFO sector that formatting writes is valid, and says that one cluster is taken. */
  lemma FsInfoReads(c: Config)
    requires 0 < c.clusters < U32
    ensures InfoSigned(FsInfo(c)) && Ld32(FsInfo(c), 488) == c.clusters - 1 && Ld32(FsInfo(c), 492) == 2
    ensures ZeroFrom(FsInfo(c), 4, 484) && ZeroFrom(FsInfo(c), 496, 510)
  {
    hide Ld32, Le32, Le16, Overwrite, Blank;
    var s := FsInfo(c);
    LeIs(0x4161_5252);
    LeIs(0x6141_7272);
    LeIs(c.clusters - 1);
    LeIs(2);
    LeIs(0xAA55);
    Read32(s, 0, 0x4161_5252);
    Read32(s, 484, 0x6141_7272);
    Read32(s, 488, c.clusters - 1);
    Read32(s, 492, 2);
    Read32(s, 508, 0xAA55_0000);
  }
}
