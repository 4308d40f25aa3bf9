/** Which layout formatting settles on, told by sizes alone: without tables of boundaries, attempts or 32-bit
    arithmetic. */
module FatChoice {
  import opened Words
  import opened FatEntry
  import opened FatFormat

  // ---------- the automatic cluster size ----------

  /** Cluster size for a FAT volume of `n` units of 4096 sectors: about the square root, at most 64. */
  ghost predicate AutoFat(n: nat, p: nat) {
    && Pow2(p)
    && if n == 0 then p == 1
       else if n < 256 then p / 2 * (p / 2) <= n < p * p
       else p == if n < 512 then 32 else 64
  }

  /** Cluster size for a FAT32 volume of `n` units of 131072 sectors: larger than `n`, at most 64. */
  ghost predicate AutoFat32(n: nat, p: nat) {
    && Pow2(p)
    && if n == 0 then p == 1 else if n < 32 then p / 2 <= n < p else p == 64
  }

  lemma SmallPowers(p: nat)
    requires Pow2(p) && p < 64
    ensures p == 1 || p == 2 || p == 4 || p == 8 || p == 16 || p == 32
  {
    assert p > 1 ==> p / 2 == 1 || p / 2 % 2 == 0;
  }

  lemma Steps(t: seq<nat>, n: nat)
    requires |t| == 6 && t[0] <= t[1] <= t[2] <= t[3] <= t[4] <= t[5]
    ensures AutoAu(t, n) == if n < t[0] then 1 else if n < t[1] then 2 else if n < t[2] then 4
                            else if n < t[3] then 8 else if n < t[4] then 16 else if n < t[5] then 32 else 64
  {
    var t1, t2, t3, t4, t5, t6 := t[1..], t[2..], t[3..], t[4..], t[5..], t[6..];
    assert t1[1..] == t2 && t2[1..] == t3 && t3[1..] == t4 && t4[1..] == t5 && t5[1..] == t6 == [];
    assert AutoAu(t6, n) == 1;
    assert AutoAu(t5, n) == if n < t[5] then 1 else 2;
    assert AutoAu(t4, n) == if n < t[4] then 1 else 2 * AutoAu(t5, n);
    assert AutoAu(t3, n) == if n < t[3] then 1 else 2 * AutoAu(t4, n);
    assert AutoAu(t2, n) == if n < t[2] then 1 else 2 * AutoAu(t3, n);
    assert AutoAu(t1, n) == if n < t[1] then 1 else 2 * AutoAu(t2, n);
  }

  lemma AutoFatIs(n: nat, p: nat)
    ensures AutoFat(n, p) <==> p == AutoAu(CST, n)
  {
    Steps(CST, n);
    assert Pow2(1) && Pow2(2) && Pow2(4) && Pow2(8) && Pow2(16) && Pow2(32) && Pow2(64);
    if AutoFat(n, p) && 0 < n < 256 {
      if p >= 64 {
        Product(p / 2);
      }
      SmallPowers(p);
    }
  }

  lemma Product(h: nat)
    requires h >= 32
    ensures h * h >= 1024
  {
  }

  lemma AutoFat32Is(n: nat, p: nat)
    ensures AutoFat32(n, p) <==> p == AutoAu(CST32, n)
  {
    Steps(CST32, n);
    assert Pow2(1) && Pow2(2) && Pow2(4) && Pow2(8) && Pow2(16) && Pow2(32) && Pow2(64);
    if AutoFat32(n, p) && 0 < n < 32 {
      SmallPowers(p);
    }
  }

  // ---------- the layout that goes with a cluster size ----------

  /** Bytes for a table with entries for `n` clusters. */
  ghost function EntryBytes(is32: bool, n: nat): nat {
    if is32 then 4 * (n + 2) else if n > 4085 then 2 * (n + 2) else (3 * n + 1) / 2 + 3
  }

  /** What lies in front of the data of a volume with FATs of `f` sectors. */
  ghost function Base(o: Opts, is32: bool, f: nat): nat {
    (if is32 then 32 else 1 + o.nRoot / 16) + (if o.nFat == 2 then 2 * f else f)
  }

  ghost function Whole(o: Opts, c: Config): nat {
    c.rsv + (if o.nFat == 2 then 2 * c.fat else c.fat) + c.dir
  }

  /** A layout `c` with clusters of `pau` sectors, its number of clusters aside: FATs of the `f` sectors that just
      hold an entry for every cluster the drive could have without them; the data on the next block boundary, for
      which reserved sectors are added on FAT32, else sectors of the FATs and at most one reserved sector; and room
      for 16 clusters. */
  ghost predicate Laid(o: Opts, is32: bool, pau: nat, c: Config, f: nat)
    requires pau > 0 && o.block > 0
  {
    var n := o.vol / pau;
    && EntryBytes(is32, n) <= 512 * f < EntryBytes(is32, n) + 512
    && c.pau == pau && c.t == (if is32 then Fat32 else if n > 4085 then Fat16 else Fat12)
    && c.dir == (if is32 then 0 else o.nRoot / 16)
    && (if is32 then c.fat == f && c.rsv >= 32 else c.fat >= f && 1 <= c.rsv <= o.nFat)
    && Whole(o, c) % o.block == 0 && Whole(o, c) < Base(o, is32, f) + o.block
    && Base(o, is32, f) + 16 * pau <= o.vol
  }

  /** Clusters of `pau` sectors settle it, with layout `c`. */
  ghost predicate Settles(o: Opts, is32: bool, pau: nat, c: Config)
    requires pau > 0 && o.block > 0
  {
    && (exists f :: Laid(o, is32, pau, c, f))
    && Whole(o, c) <= o.vol && c.clusters == (o.vol - Whole(o, c)) / pau
    && match c.t
       case Fat12 => true
       case Fat16 => 4085 < c.clusters <= 65525
       case Fat32 => 65525 < c.clusters && o.vol / pau <= 0x0FFF_FFF5
  }

  /** Clusters of `pau` sectors are too small for FAT16. */
  ghost predicate TooMany(o: Opts, pau: nat)
    requires pau > 0 && o.block > 0
  {
    exists c, f :: Laid(o, false, pau, c, f) && c.t == Fat16 && (Whole(o, c) <= o.vol ==> (o.vol - Whole(o, c)) / pau > 65525)
  }

  /** They are too large for FAT16, although their number is not without FATs. */
  ghost predicate TooFew(o: Opts, pau: nat)
    requires pau > 0 && o.block > 0
  {
    exists c, f :: Laid(o, false, pau, c, f) && c.t == Fat16 && Whole(o, c) <= o.vol && (o.vol - Whole(o, c)) / pau <= 4085
  }

  /** They are too large for FAT32, although their number is not without FATs. */
  ghost predicate TooFew32(o: Opts, pau: nat)
    requires pau > 0 && o.block > 0
  {
    && 65525 < o.vol / pau <= 0x0FFF_FFF5
    && exists c, f :: Laid(o, true, pau, c, f) && Whole(o, c) <= o.vol && (o.vol - Whole(o, c)) / pau <= 65525
  }

  // ---------- what is settled on ----------

  /** With clusters of `x` sectors as asked for: FAT12 or FAT16 if they suit, else FAT32 if they are too small for
      FAT16 and it may be used. */
  ghost predicate SettledWith(o: Opts, x: nat, c: Config)
    requires x > 0 && o.block > 0
  {
    Settles(o, false, x, c) || (TooMany(o, x) && o.fat32 && Settles(o, true, x, c))
  }

  /** FAT32 with automatic clusters of `q` sectors, or half of that. */
  ghost predicate SettledAuto32(o: Opts, q: nat, c: Config)
    requires q > 0 && o.block > 0
  {
    Settles(o, true, q, c) || (q > 1 && TooFew32(o, q) && Settles(o, true, q / 2, c))
  }

  /** Automatic clusters of `p` sectors, twice that if they do not suit FAT16, and FAT32 with automatic clusters of
      `q` sectors if even 64 are too few. */
  ghost predicate SettledAuto(o: Opts, p: nat, q: nat, c: Config)
    requires p > 0 && q > 0 && o.block > 0
  {
    if TooMany(o, p) && p == 64 && o.fat32 then SettledAuto32(o, q, c)
    else if TooMany(o, p) || TooFew(o, p) then SettledWith(o, 2 * p, c)
    else Settles(o, false, p, c)
  }

  /** The layout `c` is what formatting settles on. */
  ghost predicate Settled(o: Opts, c: Config)
    requires o.block > 0
  {
    if o.au != 0 then (if o.fat then SettledWith(o, o.au, c) else Settles(o, true, o.au, c))
    else exists p, q :: p > 0 && q > 0 && AutoFat(o.vol / 0x1000, p) && AutoFat32(o.vol / 0x20000, q)
                        && if o.fat then SettledAuto(o, p, q, c) else SettledAuto32(o, q, c)
  }

  // ---------- the one layout of a cluster size ----------

  ghost function Just(x: nat): (f: nat)
    ensures x <= 512 * f < x + 512
    ensures forall g: nat :: x <= 512 * g < x + 512 ==> g == f
  {
    (x + 511) / 512
  }

  lemma PadUnique(b: nat, m: nat, n: nat)
    requires m > 0 && n < m && (b + n) % m == 0
    ensures n == Pad(b, m)
  {
    var k, p := (b + n) / m, Pad(b, m);
    var j := (b + p) / m;
    assert b + n == m * k && b + p == m * j;
    assert n - p == m * (k - j) by {
      Times(m, k - j, j);
    }
    if k > j {
      Above(m, k - j, 0);
    } else if k < j {
      Above(m, j - k, 0);
      Times(m, k - j, j - k);
    }
  }

  ghost function TypeOf(is32: bool, n: nat): FatType {
    if is32 then Fat32 else if n > 4085 then Fat16 else Fat12
  }

  /** The layout with FATs of `f` sectors before `pad` sectors are added, without its number of clusters. */
  ghost function Padded(o: Opts, is32: bool, pau: nat, n: nat, f: nat, pad: nat): Config {
    var odd := o.nFat == 2 && pad % 2 == 1;
    if is32 then Config(TypeOf(is32, n), pau, 32 + pad, f, 0, 0)
    else Config(TypeOf(is32, n), pau, if odd then 2 else 1, f + Share(if odd then pad - 1 else pad, o.nFat), o.nRoot / 16, 0)
  }

  /** All of `Laid` but sizes. */
  ghost predicate Shaped(o: Opts, is32: bool, pau: nat, n: nat, f: nat, c: Config) {
    && c.pau == pau && c.t == TypeOf(is32, n) && c.dir == (if is32 then 0 else o.nRoot / 16)
    && (if is32 then c.fat == f && c.rsv >= 32 else c.fat >= f && 1 <= c.rsv <= o.nFat)
  }

  lemma PaddedIs(o: Opts, is32: bool, pau: nat, n: nat, f: nat, pad: nat, c: Config)
    requires 1 <= o.nFat <= 2
    ensures c.(clusters := 0) == Padded(o, is32, pau, n, f, pad) <==>
              Shaped(o, is32, pau, n, f, c) && Whole(o, c) == Base(o, is32, f) + pad
    ensures Shaped(o, is32, pau, n, f, c) ==> Whole(o, c) >= Base(o, is32, f)
  {
    hide TypeOf;
  }

  ghost function Draft(o: Opts, is32: bool, pau: nat): Config
    requires pau > 0 && o.block > 0
  {
    var f := Just(EntryBytes(is32, o.vol / pau));
    Padded(o, is32, pau, o.vol / pau, f, Pad(Base(o, is32, f), o.block))
  }

  lemma DraftWhole(o: Opts, is32: bool, pau: nat)
    requires pau > 0 && Usable(o)
    ensures var f := Just(EntryBytes(is32, o.vol / pau));
            Whole(o, Draft(o, is32, pau)) == Base(o, is32, f) + Pad(Base(o, is32, f), o.block)
  {
    hide Just, Pad, EntryBytes, Base, Whole, Padded, Shaped;
    var f := Just(EntryBytes(is32, o.vol / pau));
    PaddedIs(o, is32, pau, o.vol / pau, f, Pad(Base(o, is32, f), o.block), Draft(o, is32, pau));
    DraftBare(o, is32, pau);
  }

  lemma DraftBare(o: Opts, is32: bool, pau: nat)
    requires pau > 0 && o.block > 0
    ensures Draft(o, is32, pau).(clusters := 0) == Draft(o, is32, pau)
  {
    hide Just, Pad, EntryBytes, Base, TypeOf, Share;
  }

  /** There is exactly one layout, if there is room. */
  lemma LaidIs(o: Opts, is32: bool, pau: nat, c: Config, f: nat)
    requires pau > 0 && Usable(o)
    ensures Laid(o, is32, pau, c, f) <==>
              && c.(clusters := 0) == Draft(o, is32, pau) && f == Just(EntryBytes(is32, o.vol / pau))
              && Base(o, is32, f) + 16 * pau <= o.vol
  {
    hide Just, Pad, EntryBytes, Base, Whole, Padded, Laid, Shaped;
    var n := o.vol / pau;
    LaidParts(o, is32, pau, c, f);
    var f0 := Just(EntryBytes(is32, n));
    var pad := Pad(Base(o, is32, f0), o.block);
    PaddedIs(o, is32, pau, n, f0, pad, c);
    if Laid(o, is32, pau, c, f) {
      PadUnique(Base(o, is32, f), o.block, Whole(o, c) - Base(o, is32, f));
    }
  }

  lemma LaidParts(o: Opts, is32: bool, pau: nat, c: Config, f: nat)
    requires pau > 0 && o.block > 0
    ensures Laid(o, is32, pau, c, f) <==>
              && EntryBytes(is32, o.vol / pau) <= 512 * f < EntryBytes(is32, o.vol / pau) + 512
              && Shaped(o, is32, pau, o.vol / pau, f, c)
              && Whole(o, c) % o.block == 0 && Whole(o, c) < Base(o, is32, f) + o.block
              && Base(o, is32, f) + 16 * pau <= o.vol
  {
    hide EntryBytes, Base, Whole;
  }

  ghost predicate Roomy(o: Opts, is32: bool, pau: nat)
    requires pau > 0
  {
    Base(o, is32, Just(EntryBytes(is32, o.vol / pau))) + 16 * pau <= o.vol
  }

  /** Sectors in front of the data, and the number of clusters. */
  ghost function Used(o: Opts, is32: bool, pau: nat): nat
    requires pau > 0 && o.block > 0
  {
    Whole(o, Draft(o, is32, pau))
  }

  ghost function Left(o: Opts, is32: bool, pau: nat): nat
    requires pau > 0 && o.block > 0 && Used(o, is32, pau) <= o.vol
  {
    (o.vol - Used(o, is32, pau)) / pau
  }

  lemma SettlesIs(o: Opts, is32: bool, pau: nat, c: Config)
    requires pau > 0 && Usable(o)
    ensures Settles(o, is32, pau, c) <==>
              && Roomy(o, is32, pau) && Used(o, is32, pau) <= o.vol
              && c == Draft(o, is32, pau).(clusters := Left(o, is32, pau))
              && match Draft(o, is32, pau).t
                 case Fat12 => true
                 case Fat16 => 4085 < c.clusters <= 65525
                 case Fat32 => 65525 < c.clusters && o.vol / pau <= 0x0FFF_FFF5
  {
    var d, f := Draft(o, is32, pau), Just(EntryBytes(is32, o.vol / pau));
    LaidIs(o, is32, pau, c, f);
    forall g | Laid(o, is32, pau, c, g)
      ensures g == f
    {
      LaidIs(o, is32, pau, c, g);
    }
    hide Laid, Draft, Just, EntryBytes, Base;
    assert c.(clusters := 0) == d ==> Whole(o, c) == Whole(o, d) && c == d.(clusters := c.clusters);
  }

  lemma TooManyIs(o: Opts, pau: nat)
    requires pau > 0 && Usable(o)
    ensures TooMany(o, pau) <==>
              && Roomy(o, false, pau) && o.vol / pau > 4085
              && (Used(o, false, pau) <= o.vol ==> Left(o, false, pau) > 65525)
  {
    var d, f := Draft(o, false, pau), Just(EntryBytes(false, o.vol / pau));
    LaidIs(o, false, pau, d, f);
    assert d.t == Fat16 <==> o.vol / pau > 4085;
    forall c, g | Laid(o, false, pau, c, g)
      ensures g == f && Whole(o, c) == Whole(o, d) && c.t == d.t
    {
      LaidIs(o, false, pau, c, g);
    }
    hide Laid, Draft, Just, EntryBytes, Base;
  }

  lemma TooFewIs(o: Opts, pau: nat)
    requires pau > 0 && Usable(o)
    ensures TooFew(o, pau) <==>
              && Roomy(o, false, pau) && o.vol / pau > 4085
              && Used(o, false, pau) <= o.vol && Left(o, false, pau) <= 4085
  {
    var d, f := Draft(o, false, pau), Just(EntryBytes(false, o.vol / pau));
    LaidIs(o, false, pau, d, f);
    assert d.t == Fat16 <==> o.vol / pau > 4085;
    forall c, g | Laid(o, false, pau, c, g)
      ensures g == f && Whole(o, c) == Whole(o, d) && c.t == d.t
    {
      LaidIs(o, false, pau, c, g);
    }
    hide Laid, Draft, Just, EntryBytes, Base;
  }

  lemma TooFew32Is(o: Opts, pau: nat)
    requires pau > 0 && Usable(o)
    ensures TooFew32(o, pau) <==>
              && 65525 < o.vol / pau <= 0x0FFF_FFF5 && Roomy(o, true, pau)
              && Used(o, true, pau) <= o.vol && Left(o, true, pau) <= 65525
  {
    var d, f := Draft(o, true, pau), Just(EntryBytes(true, o.vol / pau));
    LaidIs(o, true, pau, d, f);
    forall c, g | Laid(o, true, pau, c, g)
      ensures g == f && Whole(o, c) == Whole(o, d)
    {
      LaidIs(o, true, pau, c, g);
    }
    hide Laid, Draft, Just, EntryBytes, Base;
  }

  // ---------- attempts ----------

  /** An attempt at FAT32 needs no 32-bit arithmetic. */
  lemma Attempt32Is(o: Opts, au: nat)
    requires Usable(o) && AuOk(au)
    ensures var pau := PauOf(o, true, au);
            Attempt32(o, au) ==
              if o.vol / pau <= 65525 || o.vol / pau > 0x0FFF_FFF5 || !Roomy(o, true, pau) then Abort
              else if Left32(o, pau) > 65525 then Done(Draft(o, true, pau).(clusters := Left32(o, pau)))
              else if au == 0 && pau > 1 then Again(true, pau / 2)
              else Abort
  {
    hide *;
    var pau := PauOf(o, true, au);
    Numbers32();
    UsableIs(o);
    Attempt32Parts(o, au);
    Parts32(o, pau);
    if 65525 < o.vol / pau <= 0x0FFF_FFF5 {
      UsedFits32(o, pau);
      FewerClusters(o.vol, Used(o, true, pau), pau);
      Left32Is(o, pau);
    }
  }

  lemma Numbers32()
    ensures SS == 512 && MaxClusters(Fat16) == 65525 && MaxClusters(Fat32) == 0x0FFF_FFF5
  {
  }

  lemma UsableIs(o: Opts)
    requires Usable(o)
    ensures 1 <= o.nFat <= 2 && 0 < o.block <= 0x8000 && 128 <= o.vol < U32
  {
  }

  lemma Left32Is(o: Opts, pau: nat)
    requires pau > 0 && o.block > 0 && Used(o, true, pau) <= o.vol
    ensures Left32(o, pau) == (o.vol - Used(o, true, pau)) / pau
  {
  }

  lemma Attempt32Parts(o: Opts, au: nat)
    requires o.block > 0
    ensures var pau := PauOf(o, true, au);
            var n := o.vol / pau;
            var fat := (n * 4 + 8 + SS - 1) / SS;
            var base := 32 + AllFats(fat, o.nFat);
            var rsv := 32 + Pad(base, o.block);
            var nc := Clusters(o.vol, rsv + AllFats(fat, o.nFat), pau);
            Attempt32(o, au) == if n <= MaxClusters(Fat16) || n > MaxClusters(Fat32) || o.vol < base + pau * 16 then Abort
                                else if nc <= MaxClusters(Fat16) then (if au == 0 && pau > 1 then Again(true, pau / 2) else Abort)
                                else Done(Config(Fat32, pau, rsv, fat, 0, nc))
  {
    hide Pad, AutoAu, Clusters, AllFats, MaxClusters;
  }

  lemma Parts32(o: Opts, pau: nat)
    requires pau > 0 && Usable(o)
    ensures var n := o.vol / pau;
            var fat := (n * 4 + 8 + SS - 1) / SS;
            var base := 32 + AllFats(fat, o.nFat);
            var rsv := 32 + Pad(base, o.block);
            && Draft(o, true, pau) == Config(Fat32, pau, rsv, fat, 0, 0) && Used(o, true, pau) == rsv + AllFats(fat, o.nFat)
            && (Roomy(o, true, pau) <==> base + pau * 16 <= o.vol)
  {
    var n := o.vol / pau;
    assert Just(EntryBytes(true, n)) == (n * 4 + 8 + SS - 1) / SS;
    hide Pad, Just, EntryBytes;
  }

  lemma UsedFits32(o: Opts, pau: nat)
    requires Usable(o) && 0 < pau && 65525 < o.vol / pau <= 0x0FFF_FFF5
    ensures Used(o, true, pau) <= o.vol
  {
    var n := o.vol / pau;
    var f := Just(EntryBytes(true, n));
    DraftWhole(o, true, pau);
    Shorter(o.vol, pau);
    Room32(n, o.nFat, Pad(Base(o, true, f), o.block));
    assert f == (n * 4 + 8 + SS - 1) / SS;
  }

  ghost function Left32(o: Opts, pau: nat): nat
    requires pau > 0 && o.block > 0
  {
    if Used(o, true, pau) <= o.vol then Left(o, true, pau) else 0
  }

  /** Sectors of one FAT do not wrap around for numbers of clusters that can be settled on. */
  lemma Fat0Just(n: nat)
    requires n < 0x7FFF_0000
    ensures Fat0(n) == Just(EntryBytes(false, n))
  {
    assert FatBytes(n) == EntryBytes(false, n) < U32 - 511;
  }

  /** The layout that an attempt at FAT12 or FAT16 works with, and its parts. */
  ghost function Tried(o: Opts, pau: nat): Config
    requires pau > 0 && o.block > 0
  {
    var fat0 := Fat0(o.vol / pau);
    var pad := Pad(TriedBase(o, pau), o.block);
    var odd := o.nFat == 2 && pad % 2 == 1;
    Config(if o.vol / pau > 4085 then Fat16 else Fat12, pau, if odd then 2 else 1,
           fat0 + Share(if odd then pad - 1 else pad, o.nFat), o.nRoot / 16, 0)
  }

  ghost function TriedBase(o: Opts, pau: nat): nat
    requires pau > 0
  {
    1 + AllFats(Fat0(o.vol / pau), o.nFat) + o.nRoot / 16
  }

  ghost function TriedUsed(o: Opts, pau: nat): nat
    requires pau > 0 && o.block > 0
  {
    Whole(o, Tried(o, pau))
  }

  lemma Attempt16Parts(o: Opts, au: nat)
    requires o.block > 0 && o.nFat > 0
    ensures var pau := PauOf(o, false, au);
            var n, nc := o.vol / pau, Clusters(o.vol, TriedUsed(o, pau), pau);
            Attempt16(o, au) == if o.vol < TriedBase(o, pau) + pau * 16 then Abort
                                else if n > 4085 && (nc > 65525 || nc <= 4085) then Adjust16(o, au, pau, nc)
                                else if n <= 4085 && nc > 4085 then Abort
                                else Done(Tried(o, pau).(clusters := nc))
  {
    RootSectors(o.nRoot);
    hide Pad, AutoAu, Clusters, Fat0, Share, Adjust16;
  }

  lemma RootSectors(n: nat)
    ensures n * 32 / SS == n / 16
  {
  }

  lemma Parts16(o: Opts, pau: nat)
    requires pau > 0 && Usable(o) && o.vol / pau < 0x7FFF_0000
    ensures Draft(o, false, pau) == Tried(o, pau) && Used(o, false, pau) == TriedUsed(o, pau)
    ensures Roomy(o, false, pau) <==> TriedBase(o, pau) + pau * 16 <= o.vol
  {
    Fat0Just(o.vol / pau);
    hide Pad, Just, EntryBytes, Fat0, Usable, Share;
  }

  /** An attempt at FAT12 or FAT16; an estimate so large that 32-bit arithmetic wraps around comes out as too many
      clusters, as it should. */
  lemma Attempt16Is(o: Opts, au: nat)
    requires Usable(o) && AuOk(au)
    ensures var pau := PauOf(o, false, au);
            if !Roomy(o, false, pau) then Attempt16(o, au) == Abort
            else if TooMany(o, pau) then Attempt16(o, au) == Adjust16(o, au, pau, 65526)
            else if TooFew(o, pau) then Attempt16(o, au) == Adjust16(o, au, pau, 4085)
            else if Used(o, false, pau) > o.vol then Attempt16(o, au) == Abort
            else Attempt16(o, au) == Done(Draft(o, false, pau).(clusters := Left(o, false, pau)))
  {
    hide *;
    var pau := PauOf(o, false, au);
    UsableIs(o);
    Numbers32();
    Numbers12();
    AuOkIs(au);
    PauPower(o, false, au);
    TooManyIs(o, pau);
    TooFewIs(o, pau);
    Attempt16Parts(o, au);
    AdjustSame(o, au, pau);
    Shorter(o.vol, pau);
    if o.vol / pau < 0x7FFF_0000 {
      Parts16(o, pau);
      NcIs(o, pau);
    } else {
      HugeIs(o, pau);
      HugeWraps(o, pau);
    }
  }

  lemma Numbers12()
    ensures MaxClusters(Fat12) == 4085
  {
  }

  lemma AdjustSame(o: Opts, au: nat, pau: nat)
    ensures forall nc: nat :: nc > 65525 ==> Adjust16(o, au, pau, nc) == Adjust16(o, au, pau, 65526)
    ensures forall nc: nat :: nc <= 65525 ==> Adjust16(o, au, pau, nc) == Adjust16(o, au, pau, 4085)
  {
  }

  lemma NcIs(o: Opts, pau: nat)
    requires Usable(o) && 0 < pau <= 128
    ensures Used(o, false, pau) <= o.vol ==> Clusters(o.vol, Used(o, false, pau), pau) == Left(o, false, pau) <= o.vol / pau
    ensures Used(o, false, pau) > o.vol && Roomy(o, false, pau) ==> Clusters(o.vol, Used(o, false, pau), pau) > 65525
  {
    DraftWhole(o, false, pau);
    hide Draft, Just, EntryBytes, Pad, Clusters;
    if Used(o, false, pau) <= o.vol {
      FewerClusters(o.vol, Used(o, false, pau), pau);
    } else if Roomy(o, false, pau) {
      WrappedClusters(o.vol, Used(o, false, pau), pau);
    }
  }

  /** Even with a FAT of full size there are too many clusters. */
  lemma HugeIs(o: Opts, pau: nat)
    requires Usable(o) && 0 < pau <= 128 && o.vol / pau >= 0x7FFF_0000
    ensures Roomy(o, false, pau) && (Used(o, false, pau) <= o.vol ==> Left(o, false, pau) > 65525)
  {
    var n := o.vol / pau;
    Shorter(o.vol, pau);
    DraftWhole(o, false, pau);
    var f := Just(EntryBytes(false, n));
    assert 512 * f < 2 * n + 516;
    assert Base(o, false, f) <= 2049 + 2 * f;
    hide Just, Pad, Draft;
    if Used(o, false, pau) <= o.vol {
      Plenty(o.vol, Used(o, false, pau), pau);
    }
  }

  lemma Plenty(vol: nat, used: nat, pau: nat)
    requires 0 < pau <= 128 && used + 0x4000_0000 <= vol
    ensures (vol - used) / pau > 65525
  {
    var q := (vol - used) / pau;
    Quotient(vol - used, pau);
    Above(pau, 65526, q);
    assert pau * 65526 <= 128 * 65526;
  }

  /** The wrapped size of a FAT is smaller still. */
  lemma HugeWraps(o: Opts, pau: nat)
    requires Usable(o) && 0 < pau <= 128 && o.vol / pau >= 0x7FFF_0000
    ensures TriedBase(o, pau) + pau * 16 <= o.vol && Clusters(o.vol, TriedUsed(o, pau), pau) > 65525
  {
    Shorter(o.vol, pau);
    var c := Tried(o, pau);
    var pad := Pad(TriedBase(o, pau), o.block);
    Spread(Fat0(o.vol / pau), o.nFat, c.dir, pad, c.rsv, c.fat);
    var used := TriedUsed(o, pau);
    assert used <= 2049 + 0x100_0000 + 0x8000;
    hide Fat0, Pad, Share, AllFats, Clusters, Tried, TriedUsed;
    FewerClusters(o.vol, used, pau);
    Plenty(o.vol, used, pau);
  }

  // ---------- all attempts together ----------

  /** What an attempt at FAT32 comes to. */
  lemma Tried32(o: Opts, au: nat, c: Config)
    requires Usable(o) && AuOk(au)
    ensures var pau, a := PauOf(o, true, au), Attempt32(o, au);
            && (Settles(o, true, pau, c) <==> a == Done(c))
            && (a.Again? <==> au == 0 && pau > 1 && TooFew32(o, pau)) && (a.Again? ==> a == Again(true, pau / 2))
  {
    var pau := PauOf(o, true, au);
    Attempt32Is(o, au);
    SettlesIs(o, true, pau, c);
    TooFew32Is(o, pau);
    if 65525 < o.vol / pau <= 0x0FFF_FFF5 {
      UsedFits32(o, pau);
    }
    LeftLess(o, true, pau);
    hide Attempt32, Settles, TooFew32, PauOf, Usable, AuOk, Roomy, Used, Left;
  }

  lemma LeftLess(o: Opts, is32: bool, pau: nat)
    requires pau > 0 && Usable(o)
    ensures Used(o, is32, pau) <= o.vol ==> Left(o, is32, pau) <= o.vol / pau
    ensures Draft(o, is32, pau).t == if is32 then Fat32 else if o.vol / pau > 4085 then Fat16 else Fat12
  {
    hide Pad, Just, EntryBytes, Used;
    if Used(o, is32, pau) <= o.vol {
      FewerClusters(o.vol, Used(o, is32, pau), pau);
    }
  }

  /** What an attempt at FAT12 or FAT16 comes to. */
  lemma Tried16(o: Opts, au: nat, c: Config)
    requires Usable(o) && AuOk(au)
    ensures var pau, a := PauOf(o, false, au), Attempt16(o, au);
            && (Settles(o, false, pau, c) <==> a == Done(c)) && !(TooMany(o, pau) && TooFew(o, pau))
            && (a.Again? ==> TooMany(o, pau) || TooFew(o, pau))
            && (TooMany(o, pau) ==> a == Adjust16(o, au, pau, 65526)) && (TooFew(o, pau) ==> a == Adjust16(o, au, pau, 4085))
  {
    var pau := PauOf(o, false, au);
    Attempt16Is(o, au);
    SettlesIs(o, false, pau, c);
    TooFewIs(o, pau);
    TooManyIs(o, pau);
    LeftLess(o, false, pau);
    hide Attempt16, Settles, TooMany, TooFew, PauOf, Usable, AuOk, Roomy, Used, Left, Draft;
  }

  /** Plans with a cluster size that was asked for. */
  lemma PlanWith32(o: Opts, x: nat, c: Config)
    requires Usable(o) && AuOk(x) && x > 0
    ensures Plan(o, true, x) == Planned(c) <==> Settles(o, true, x, c)
  {
    Tried32(o, x, c);
    hide Settles, TooFew32, Attempt32;
  }

  lemma PlanWith16(o: Opts, x: nat, c: Config)
    requires Usable(o) && AuOk(x) && x > 0
    ensures Plan(o, false, x) == Planned(c) <==> SettledWith(o, x, c)
  {
    Tried16(o, x, c);
    PlanWith32(o, x, c);
    hide Settles, TooMany, TooFew, Attempt16, Attempt32;
    if TooMany(o, x) && o.fat32 {
      assert Attempt(o, false, x) == Again(true, x);
    }
  }

  /** Plans with an automatic cluster size. */
  lemma PlanAuto32(o: Opts, q: nat, c: Config)
    requires Usable(o) && q == PauOf(o, true, 0)
    ensures Plan(o, true, 0) == Planned(c) <==> SettledAuto32(o, q, c)
  {
    PauPower(o, true, 0);
    Tried32(o, 0, c);
    TwicePower(q);
    if q > 1 {
      PlanWith32(o, q / 2, c);
    }
    hide Settles, TooFew32, Attempt32;
  }

  lemma PlanAuto16(o: Opts, p: nat, q: nat, c: Config)
    requires Usable(o) && p == PauOf(o, false, 0) && q == PauOf(o, true, 0)
    ensures Plan(o, false, 0) == Planned(c) <==> SettledAuto(o, p, q, c)
  {
    hide *;
    UsableIs(o);
    PauPower(o, false, 0);
    PowerTo64(p);
    AuOkNone();
    Tried16(o, 0, c);
    AutoAdjusts(o, p);
    TwicePower(p);
    AuOkTwice(p);
    PlanStep(o, false, 0);
    PlanWith16(o, 2 * p, c);
    PlanAuto32(o, q, c);
    AutoIs(o, p, q, c);
  }

  lemma AutoIs(o: Opts, p: nat, q: nat, c: Config)
    requires p > 0 && q > 0 && o.block > 0
    ensures SettledAuto(o, p, q, c) <==>
              if TooMany(o, p) && p == 64 && o.fat32 then SettledAuto32(o, q, c)
              else if TooMany(o, p) || TooFew(o, p) then SettledWith(o, 2 * p, c)
              else Settles(o, false, p, c)
  {
  }

  lemma AutoAdjusts(o: Opts, p: nat)
    requires 0 < p <= 64
    ensures Adjust16(o, 0, p, 65526) == if p <= 32 || !o.fat32 then Again(false, p * 2) else Again(true, 0)
    ensures Adjust16(o, 0, p, 4085) == Again(false, p * 2)
  {
  }

  lemma AuOkTwice(p: nat)
    requires Pow2(p * 2) && p <= 64
    ensures AuOk(2 * p)
  {
    assert 2 * p == p * 2;
  }

  lemma AuOkNone()
    ensures AuOk(0)
  {
  }

  lemma PlanStep(o: Opts, is32: bool, au: nat)
    requires o.block > 0 && o.nFat > 0
    ensures var a := if is32 then Attempt32(o, au) else Attempt16(o, au);
            Plan(o, is32, au) == match a
                                 case Abort => Aborted
                                 case Done(c) => Planned(c)
                                 case Again(b, x) => Plan(o, b, x)
  {
    hide Attempt16, Attempt32;
  }

  lemma PowerTo64(p: nat)
    requires Pow2(p) && p <= 64
    ensures p == 64 || p <= 32
  {
    if p < 64 {
      SmallPowers(p);
    }
  }

  /** The loop of attempts settles on just the layout described, and gives up if there is none. */
  lemma PlanIs(o: Opts, c: Config)
    requires Usable(o)
    ensures Plan(o, !o.fat, o.au) == Planned(c) <==> Settled(o, c)
  {
    if o.au != 0 {
      if o.fat {
        PlanWith16(o, o.au, c);
      } else {
        PlanWith32(o, o.au, c);
      }
    } else {
      var p, q := PauOf(o, false, 0), PauOf(o, true, 0);
      forall x
        ensures AutoFat(o.vol / 0x1000, x) <==> x == p
        ensures AutoFat32(o.vol / 0x20000, x) <==> x == q
      {
        AutoFatIs(o.vol / 0x1000, x);
        AutoFat32Is(o.vol / 0x20000, x);
      }
      PlanAuto16(o, p, q, c);
      PlanAuto32(o, q, c);
      hide AutoFat, AutoFat32, SettledAuto, SettledAuto32, Plan, PauOf;
    }
  }

  // ---------- from the wish on ----------

  /** What the wishes of the caller and the properties of the drive mean: what is unusable gives way to one FAT, 512
      root entries, blocks of one sector, and automatic clusters; clusters have at most 128 sectors. */
  ghost predicate Meant(w: Wish, d: Drive, o: Opts) {
    var block := if w.align != 0 then w.align else d.block;
    && o.vol == d.sectors && o.fat == w.fat && o.fat32 == w.fat32
    && (if Pow2(block) && block <= 32768 then o.block == block else o.block == 1)
    && (if w.nFat == 1 || w.nFat == 2 then o.nFat == w.nFat else o.nFat == 1)
    && (if 0 < w.nRoot <= 32768 && w.nRoot % 16 == 0 then o.nRoot == w.nRoot else o.nRoot == 512)
    && (if Pow2(w.auSize) && 512 <= w.auSize <= 0x100_0000
        then o.au == (if w.auSize > 65536 then 128 else w.auSize / 512)
        else o.au == 0)
  }

  lemma MeantIs(w: Wish, d: Drive, o: Opts)
    ensures Meant(w, d, o) <==> o == Normal(w, d)
  {
    hide Pow2;
    NoPower();
  }

  lemma NoPower()
    ensures !Pow2(0)
  {
  }

  /** The layout that is settled on, for every wish and every drive; with none it is refused. */
  lemma ChosenIs(w: Wish, d: Drive, o: Opts, c: Config)
    requires d.sectors < U32
    ensures Chosen(w, d) == Ready(o, c) <==> d.sectors >= 128 && (w.fat || w.fat32) && Meant(w, d, o) && Settled(o, c)
    ensures Chosen(w, d) == InvalidParameter <==> d.sectors >= 128 && !w.fat && !w.fat32
    ensures Chosen(w, d) == MkfsAborted && Meant(w, d, o) && d.sectors >= 128 ==> !Settled(o, c)
  {
    MeantIs(w, d, o);
    if d.sectors >= 128 {
      NormalUsable(w, d);
      PlanIs(Normal(w, d), c);
    }
    hide Meant, Settled, Plan, Normal, Usable;
    assert Normal(w, d).fat == w.fat by {
      FormatAsked(w, d);
    }
  }

  lemma FormatAsked(w: Wish, d: Drive)
    ensures Normal(w, d).fat == w.fat
  {
  }
}
