/** Which boot sectors are mounted, and what is found in them: the fields as numbers, without 32-bit arithmetic. */
module FatMount {
  import opened Words
  import opened FatEntry
  import opened FatVolume
  import opened FatContent
  import opened FatFormat
  import opened FatBoot

  /** The little-endian number in the `n` bytes from `at` on. */
  function Num(s: Bytes, at: nat, n: nat): nat
    requires at + n <= |s|
  {
    Little(s[at..at + n])
  }

  lemma Num2(s: Bytes, at: nat)
    requires at + 2 <= |s|
    ensures Num(s, at, 2) == Ld16(s, at)
  {
    var b := s[at..at + 2];
    Little2(b);
    assert b[2..] == [];
  }

  lemma Num4(s: Bytes, at: nat)
    requires at + 4 <= |s|
    ensures Num(s, at, 4) == Ld32(s, at)
  {
    var b := s[at..at + 4];
    Little4(b);
    assert b[4..] == [];
  }

  /** What a boot sector says: sectors of a cluster, reserved sectors, number of tables and of root entries, sectors of
      one table, and all sectors. */
  datatype Fields = Fields(spc: nat, rsv: nat, fats: nat, root: nat, fsz: nat, tot: nat)

  function FieldsOf(s: Bytes): Fields
    requires |s| == SS
  {
    Fields(s[13], Num(s, 14, 2), s[16], Num(s, 17, 2),
           if Num(s, 22, 2) != 0 then Num(s, 22, 2) else Num(s, 36, 4),
           if Num(s, 19, 2) != 0 then Num(s, 19, 2) else Num(s, 32, 4))
  }

  /** Sectors in front of the data. */
  function Sys(f: Fields): nat {
    f.rsv + (if f.fats == 2 then 2 * f.fsz else f.fsz) + f.root / 16
  }

  function DataClusters(f: Fields): nat
    requires f.spc > 0 && Sys(f) <= f.tot
  {
    Estimate(f.tot - Sys(f), f.spc)
  }

  /** Bytes of a table with entries for `n` clusters. */
  function NeedBytes(n: nat): nat {
    if n <= 4085 then ((n + 2) * 3 + 1) / 2 else if n <= 65525 then (n + 2) * 2 else (n + 2) * 4
  }

  /** Boot sectors that are mounted. */
  ghost predicate Mountable(s: Bytes)
    requires |s| == SS
  {
    var f := FieldsOf(s);
    && (s[0] == 0xEB || s[0] == 0xE9 || s[0] == 0xE8)
    && ((s[510] == 0x55 && s[511] == 0xAA && Says(s, 82, "FAT32   "))
        || ((Num(s, 19, 2) >= 128 || Num(s, 32, 4) >= 65536) && f.root > 0 && Num(s, 22, 2) > 0))
    && Num(s, 11, 2) == 512 && Pow2(f.spc) && f.rsv > 0 && (f.fats == 1 || f.fats == 2) && f.root % 16 == 0
    && Sys(f) <= f.tot && 1 <= DataClusters(f) <= 0x0FFF_FFF5
    && (if DataClusters(f) > 65525 then Num(s, 42, 2) == 0 && f.root == 0 else f.root > 0)
    && NeedBytes(DataClusters(f)) <= 512 * f.fsz
  }

  /** What is found: the layout, root entries, where the root directory is, and from an FSINFO sector that is valid and where
      it should be, the clusters said to be free and last allocated. */
  ghost predicate Finds(s: Bytes, i: Bytes, m: Mounted)
    requires |s| == |i| == SS && Mountable(s)
  {
    var f := FieldsOf(s);
    var n := DataClusters(f);
    var info := n > 65525 && Num(s, 48, 2) == 1;
    var known := info && Num(i, 0, 4) == 0x4161_5252 && Num(i, 484, 4) == 0x6141_7272 && Num(i, 508, 4) == 0xAA55_0000;
    && m.Volume?
    && m.y == Layout(if n <= 4085 then Fat12 else if n <= 65525 then Fat16 else Fat32, f.fats, f.rsv, f.fsz, Sys(f), f.spc, n + 2)
    && m.rootEntries == f.root && m.dirbase == (if n > 65525 then Num(s, 44, 4) else Sys(f) - f.root / 16) && m.fsInfo == info
    && m.free == (if known then Num(i, 488, 4) else 0xFFFF_FFFF) && m.last == (if known then Num(i, 492, 4) else 0xFFFF_FFFF)
  }

  lemma FieldsAre(s: Bytes)
    requires |s| == SS
    ensures FieldsOf(s) == Fields(s[13], Ld16(s, 14), s[16], Ld16(s, 17), FatSize(s), TotalSectors(s))
    ensures Num(s, 11, 2) == Ld16(s, 11) && Num(s, 19, 2) == Ld16(s, 19) && Num(s, 22, 2) == Ld16(s, 22) && Num(s, 32, 4) == Ld32(s, 32)
    ensures Num(s, 42, 2) == Ld16(s, 42) && Num(s, 44, 4) == Ld32(s, 44) && Num(s, 48, 2) == Ld16(s, 48)
  {
    hide Num, Ld16, Ld32;
    Num2(s, 11);
    Num2(s, 14);
    Num2(s, 17);
    Num2(s, 19);
    Num2(s, 22);
    Num2(s, 42);
    Num2(s, 48);
    Num4(s, 32);
    Num4(s, 36);
    Num4(s, 44);
  }

  lemma SysIs(s: Bytes)
    requires |s| == SS && 1 <= s[16] <= 2
    ensures Sys(FieldsOf(s)) == SysExact(s)
    ensures SysExact(s) < U32 ==> SysSectors(s) == SysExact(s) && Wrap32(Ld16(s, 14) + FatsWrapped(FatSize(s), s[16])) == SysExact(s) - Ld16(s, 17) / 16
  {
    hide Num, Ld16, Ld32, FatSize;
    FieldsAre(s);
    SysWraps(s);
  }

  lemma Signed32(s: Bytes)
    requires |s| == SS
    ensures s[82..90] == FAT32_ <==> Says(s, 82, "FAT32   ")
    ensures Ld16(s, 510) == 0xAA55 <==> s[510] == 0x55 && s[511] == 0xAA
  {
    Names();
    var t := s[82..90];
    assert forall i :: 0 <= i < 8 ==> t[i] == s[82 + i];
    if Says(s, 82, "FAT32   ") {
      assert forall i :: 0 <= i < 8 ==> s[82 + i] == "FAT32   "[i] as int;
      assert t == FAT32_;
    }
    if t == FAT32_ {
      forall i | 82 <= i < 90
        ensures s[i] == "FAT32   "[i - 82] as int
      {
        assert t[i - 82] == FAT32_[i - 82];
      }
    }
  }

  lemma NeedIs(t: FatType, n: nat, f: nat)
    requires t == TypeFor(n)
    ensures f < (TableSize(t, n) + SS - 1) / SS <==> NeedBytes(n) > 512 * f
    ensures t == if n <= 4085 then Fat12 else if n <= 65525 then Fat16 else Fat32
  {
    hide TableSize, NeedBytes;
    SizeIs(t, n);
    Sectors(NeedBytes(n), f);
  }

  lemma SizeIs(t: FatType, n: nat)
    requires t == TypeFor(n)
    ensures TableSize(t, n) == NeedBytes(n)
  {
    var h := n / 2;
    if n % 2 == 1 {
      DivModUnique((n + 2) * 3, 2, 3 * h + 4, 1);
    } else {
      DivModUnique((n + 2) * 3, 2, 3 * h + 3, 0);
    }
  }

  lemma Sectors(x: nat, f: nat)
    ensures f < (x + SS - 1) / SS <==> x > 512 * f
  {
  }

  lemma NoPower()
    ensures !Pow2(0)
  {
  }

  lemma InfoIs(i: Bytes)
    requires |i| == SS
    ensures InfoSigned(i) <==> Num(i, 0, 4) == 0x4161_5252 && Num(i, 484, 4) == 0x6141_7272 && Num(i, 508, 4) == 0xAA55_0000
    ensures Num(i, 488, 4) == Ld32(i, 488) && Num(i, 492, 4) == Ld32(i, 492)
  {
    hide Num, Ld32;
    Num4(i, 0);
    Num4(i, 484);
    Num4(i, 508);
    Num4(i, 488);
    Num4(i, 492);
  }

  /** A boot sector whose front part does not wrap around 32 bits is mounted if and only if its fields make sense, and
      then just what they say is found. */
  lemma MountIs(s: Bytes, i: Bytes)
    requires |s| == |i| == SS && SysExact(s) < U32
    ensures Mount(s, i).Volume? <==> Mountable(s)
    ensures Mountable(s) ==> Finds(s, i, Mount(s, i))
  {
    hide Num, Ld16, Ld32, FatSize, TotalSectors, SysSectors, Wrap32, FatsWrapped, AllFats, TableSize, NeedBytes, InfoSigned, Pow2, Estimate, TypeFor,
         SysExact, FieldsOf, Sys, Says;
    FieldsAre(s);
    Signed32(s);
    InfoIs(i);
    NoPower();
    if s[16] == 1 || s[16] == 2 {
      SysIs(s);
      if SysSectors(s) <= TotalSectors(s) && s[13] > 0 {
        var n := ClusterCount(s);
        NeedIs(TypeFor(n), n, FatSize(s));
      }
    }
  }
}
