/** Choosing the layout of a new FAT volume: cluster size, FAT type, and where everything lies.  The
    volume starts at sector 0 of its drive. */
module FatFormat {
  import opened Words
  import opened FatEntry

  /** What the caller asked for; zero and values that make no sense stand for defaults. */
  datatype Wish = Wish(fat: bool, fat32: bool, align: nat, nFat: nat, nRoot: nat, auSize: nat)

  /** The drive: its size in sectors and the block size it reports. */
  datatype Drive = Drive(sectors: nat, block: nat)

  /** What formatting works with. */
  datatype Opts = Opts(vol: nat, block: nat, nFat: nat, nRoot: nat, au: nat, fat: bool, fat32: bool)

  /** Replace what is unusable by defaults. */
  function Normal(w: Wish, d: Drive): Opts {
    var block := if w.align == 0 then d.block else w.align;
    var au := if w.auSize <= 0x100_0000 && (w.auSize == 0 || Pow2(w.auSize)) then w.auSize / SS else 0;
    Opts(d.sectors,
         if block == 0 || block > 0x8000 || !Pow2(block) then 1 else block,
         if 1 <= w.nFat <= 2 then w.nFat else 1,
         if 1 <= w.nRoot <= 32768 && w.nRoot % 16 == 0 then w.nRoot else 512,
         if au > 128 then 128 else au, w.fat, w.fat32)
  }

  predicate Usable(o: Opts) {
    && 128 <= o.vol < U32 && 0 < o.block <= 0x8000 && Pow2(o.block) && 1 <= o.nFat <= 2
    && 16 <= o.nRoot <= 32768 && o.nRoot % 16 == 0 && (o.au == 0 || (o.au <= 128 && Pow2(o.au)))
  }

  lemma NormalUsable(w: Wish, d: Drive)
    requires 128 <= d.sectors < U32
    ensures Usable(Normal(w, d))
  {
    var au := w.auSize / SS;
    if Pow2(w.auSize) {
      PowerOverSector(w.auSize);
    }
    assert Pow2(128) && Pow2(1);
  }

  lemma {:induction false} PowerDivides(x: nat, k: nat)
    requires Pow2(x) && k < 20
    ensures x / Power(k) == 0 || Pow2(x / Power(k))
  {
    if k > 0 {
      PowerDivides(x, k - 1);
      HalfPower(x, k);
      if x / Power(k - 1) > 1 {
        assert Pow2(x / Power(k - 1));
      }
    }
  }

  function Power(k: nat): (p: nat)
    ensures p > 0
  {
    if k == 0 then 1 else 2 * Power(k - 1)
  }

  lemma HalfPower(x: nat, k: nat)
    requires k > 0
    ensures x / Power(k) == x / Power(k - 1) / 2
  {
    var p := Power(k - 1);
    var q, r := x / p / 2, x / p % 2;
    assert x == p * (x / p) + x % p;
    assert p * (2 * q + r) == 2 * p * q + p * r;
    assert p * r <= p;
    DivModUnique(x, 2 * p, q, p * r + x % p);
  }

  lemma PowerOverSector(x: nat)
    requires Pow2(x)
    ensures x / SS == 0 || Pow2(x / SS)
  {
    assert Power(9) == 512 by {
      assert Power(5) == 32;
    }
    PowerDivides(x, 9);
  }

  // ---------- one attempt ----------

  const CST: seq<nat> := [1, 4, 16, 64, 256, 512]
  const CST32: seq<nat> := [1, 2, 4, 8, 16, 32]

  /** Cluster size for a volume of `n` units: doubled for every boundary in the table not above `n`. */
  function AutoAu(table: seq<nat>, n: nat): (pau: nat)
    ensures pau > 0
    decreases |table|
  {
    if table == [] || table[0] > n then 1 else 2 * AutoAu(table[1..], n)
  }

  /** A layout: type, cluster size, reserved sectors, sectors of one FAT, of the root directory, and the
      number of clusters. */
  datatype Config = Config(t: FatType, pau: nat, rsv: nat, fat: nat, dir: nat, clusters: nat)

  datatype Try = Abort | Again(is32: bool, au: nat) | Done(c: Config)

  /** How many sectors it is from `b` to the next multiple of `m`. */
  function Pad(b: nat, m: nat): (n: nat)
    requires m > 0
    ensures n < m && (b + n) % m == 0
  {
    var q, r := (b + m - 1) / m, (b + m - 1) % m;
    assert b + m - 1 == m * q + r;
    DivModUnique(m * q, m, q, 0);
    q * m - b
  }

  /** Clusters that fit behind `used` sectors, in 32-bit arithmetic. */
  function Clusters(vol: nat, used: nat, pau: nat): nat
    requires pau > 0
  {
    (vol - used) % U32 / pau
  }

  /** A first estimate of the number of clusters, without any table. */
  function Estimate(vol: nat, pau: nat): (n: nat)
    requires pau > 0
  {
    Quotient(vol, pau);
    vol / pau
  }

  /** Sectors of all FATs together. */
  function AllFats(fat: nat, nFat: nat): nat {
    if nFat == 2 then fat + fat else fat
  }

  /** What each FAT gets of `n` sectors. */
  function Share(n: nat, nFat: nat): nat {
    if nFat == 2 then n / 2 else n
  }

  /** One attempt at a FAT32 volume. */
  function Attempt32(o: Opts, au: nat): Try
    requires o.block > 0
  {
    var pau := if au == 0 then AutoAu(CST32, o.vol / 0x20000) else au;
    var n := Estimate(o.vol, pau);
    if n <= MaxClusters(Fat16) || n > MaxClusters(Fat32) then Abort
    else
      var fat := (n * 4 + 8 + SS - 1) / SS;
      var base := 32 + AllFats(fat, o.nFat);
      var rsv := 32 + Pad(base, o.block);
      if o.vol < base + pau * 16 then Abort
      else
        var nc := Clusters(o.vol, rsv + AllFats(fat, o.nFat), pau);
        if nc <= MaxClusters(Fat16) then
          if au == 0 && pau / 2 != 0 then Again(true, pau / 2) else Abort
        else Done(Config(Fat32, pau, rsv, fat, 0, nc))
  }

  /** What a cluster count that does not suit FAT16 leads to. */
  function Adjust16(o: Opts, au: nat, pau: nat, nc: nat): Try {
    if nc > MaxClusters(Fat16) then
      if au == 0 && pau * 2 <= 64 then Again(false, pau * 2)
      else if o.fat32 then Again(true, au)
      else if au == 0 && pau * 2 <= 128 then Again(false, pau * 2)
      else Abort
    else if au == 0 && pau * 2 <= 128 then Again(false, pau * 2)
    else Abort
  }

  /** Bytes of one FAT for `n` clusters, in 32-bit arithmetic. */
  function FatBytes(n: nat): nat {
    if n > MaxClusters(Fat12) then (n * 2 + 4) % U32 else (n * 3 + 1) / 2 + 3
  }

  /** Sectors of one FAT for `n` clusters. */
  function Fat0(n: nat): (f: nat)
    ensures f <= 0x80_0000
  {
    (FatBytes(n) + SS - 1) % U32 / SS
  }

  /** One attempt at a FAT12 or FAT16 volume. */
  function Attempt16(o: Opts, au: nat): Try
    requires o.block > 0 && o.nFat > 0
  {
    var pau := if au == 0 then AutoAu(CST, o.vol / 0x1000) else au;
    var n := Estimate(o.vol, pau);
    var t := if n > MaxClusters(Fat12) then Fat16 else Fat12;
    var fat0 := Fat0(n);
    var dir := o.nRoot * 32 / SS;
    var base := 1 + AllFats(fat0, o.nFat) + dir;
    var pad := Pad(base, o.block);
    var odd := o.nFat == 2 && pad % 2 == 1;
    var rsv := if odd then 2 else 1;
    var fat := fat0 + Share(if odd then pad - 1 else pad, o.nFat);
    if o.vol < base + pau * 16 then Abort
    else
      var nc := Clusters(o.vol, rsv + AllFats(fat, o.nFat) + dir, pau);
      if t == Fat16 && (nc > MaxClusters(Fat16) || nc <= MaxClusters(Fat12)) then Adjust16(o, au, pau, nc)
      else if t == Fat12 && nc > MaxClusters(Fat12) then Abort
      else Done(Config(t, pau, rsv, fat, dir, nc))
  }

  function Attempt(o: Opts, is32: bool, au: nat): Try
    requires o.block > 0 && o.nFat > 0
  {
    if is32 then Attempt32(o, au) else Attempt16(o, au)
  }

  // ---------- retrying ----------

  /** Every retry fixes the cluster size or gives up FAT16 for FAT32, so there are at most two. */
  lemma RetryProgress(o: Opts, is32: bool, au: nat)
    requires o.block > 0 && o.nFat > 0 && Attempt(o, is32, au).Again?
    ensures var a := Attempt(o, is32, au);
            if a.is32 == is32 then au == 0 && a.au > 0 else a.is32 && a.au == au
  {
    var pau := if au == 0 then AutoAu(CST, o.vol / 0x1000) else au;
    assert pau * 2 > 0;
  }

  datatype Outcome = Aborted | Planned(c: Config)

  /** Attempts until one settles it. */
  function Plan(o: Opts, is32: bool, au: nat): Outcome
    requires o.block > 0 && o.nFat > 0
    decreases !is32, au == 0
  {
    var a := Attempt(o, is32, au);
    match a
    case Abort => Aborted
    case Done(c) => Planned(c)
    case Again(b, x) =>
      RetryProgress(o, is32, au);
      Plan(o, b, x)
  }

  /** The attempts as a loop. */
  method PlanVolume(o: Opts, is32: bool) returns (r: Outcome)
    requires o.block > 0 && o.nFat > 0
    ensures r == Plan(o, is32, o.au)
  {
    var b, au := is32, o.au;
    while true
      invariant Plan(o, b, au) == Plan(o, is32, o.au)
      decreases !b, au == 0
    {
      var a := Attempt(o, b, au);
      match a
      case Abort =>
        return Aborted;
      case Done(c) =>
        return Planned(c);
      case Again(x, y) =>
        RetryProgress(o, b, au);
        b, au := x, y;
    }
  }

  // ---------- what a settled layout satisfies ----------

  function Front(o: Opts, c: Config): nat {
    c.rsv + AllFats(c.fat, o.nFat) + c.dir
  }

  /** The type that goes with a number of clusters. */
  function TypeFor(n: nat): FatType {
    if n <= MaxClusters(Fat12) then Fat12 else if n <= MaxClusters(Fat16) then Fat16 else Fat32
  }

  /** Bytes that a table for `n` clusters takes. */
  function TableSize(t: FatType, n: nat): nat {
    match t
    case Fat12 => (n + 2) * 3 / 2 + n % 2
    case Fat16 => (n + 2) * 2
    case Fat32 => (n + 2) * 4
  }

  /** A layout that can be mounted once it has a cluster. */
  predicate Fitting(o: Opts, c: Config)
    requires o.block > 0
  {
    && Pow2(c.pau) && c.pau <= 128 && 0 < c.rsv < 0x10000 && Front(o, c) <= o.vol
    && c.clusters == (o.vol - Front(o, c)) / c.pau && c.t == TypeFor(c.clusters) && c.clusters <= MaxClusters(Fat32)
    && 0 < c.fat && TableSize(c.t, c.clusters) <= c.fat * SS && Front(o, c) % o.block == 0
    && (if c.t == Fat32 then c.dir == 0 && c.rsv >= 32 else c.fat < 0x10000 && c.dir == o.nRoot / 16)
  }

  lemma {:induction false} AutoPower(table: seq<nat>, n: nat)
    ensures Pow2(AutoAu(table, n))
    decreases |table|
  {
    if table != [] && table[0] <= n {
      AutoPower(table[1..], n);
    }
  }

  lemma AutoSmall(table: seq<nat>, n: nat)
    requires |table| == 6
    ensures AutoAu(table, n) <= 64
  {
    assert AutoAu(table[1..][1..][1..][1..][1..][1..], n) == 1;
    assert AutoAu(table[1..][1..][1..][1..], n) <= 4;
    assert AutoAu(table[1..][1..], n) <= 16;
  }

  /** The cluster size an attempt works with. */
  function PauOf(o: Opts, is32: bool, au: nat): (pau: nat)
    ensures pau > 0
  {
    if au != 0 then au else if is32 then AutoAu(CST32, o.vol / 0x20000) else AutoAu(CST, o.vol / 0x1000)
  }

  lemma PauPower(o: Opts, is32: bool, au: nat)
    requires au == 0 || (au <= 128 && Pow2(au))
    ensures Pow2(PauOf(o, is32, au)) && PauOf(o, is32, au) <= 128
    ensures au == 0 ==> PauOf(o, is32, au) <= 64
  {
    AutoPower(CST32, o.vol / 0x20000);
    AutoPower(CST, o.vol / 0x1000);
    AutoSmall(CST32, o.vol / 0x20000);
    AutoSmall(CST, o.vol / 0x1000);
  }

  lemma Times(p: nat, x: int, y: int)
    ensures p * (x + y) == p * x + p * y && p * 1 == p && (y >= 0 ==> p * y >= 0)
  {
  }

  /** A larger factor makes the product larger by at least `p`. */
  lemma Above(p: nat, a: int, b: int)
    ensures a > b ==> p * a >= p * b + p
  {
    Times(p, b, a - b);
    Times(p, 1, a - b - 1);
    Times(p, b + 1, a - b - 1);
    Times(p, b, 1);
  }

  lemma Quotient(x: nat, p: nat)
    requires p > 0
    ensures 0 <= x / p && p * (x / p) <= x < p * (x / p) + p
  {
    var q, r := x / p, x % p;
    assert x == p * q + r && 0 <= r < p;
    Above(p, 0, q);
  }

  /** No wrap-around, and no more clusters than estimated. */
  lemma FewerClusters(vol: nat, used: nat, pau: nat)
    requires 0 < pau && used <= vol < U32
    ensures Clusters(vol, used, pau) == (vol - used) / pau <= vol / pau
  {
    var a, b := (vol - used) / pau, vol / pau;
    Quotient(vol - used, pau);
    Quotient(vol, pau);
    Above(pau, a, b);
  }

  /** If the layout did not fit, the wrapped number of clusters would be huge. */
  lemma WrappedClusters(vol: nat, used: nat, pau: nat)
    requires 0 < pau <= 128 && vol < used <= vol + 0x8000 && vol < U32
    ensures Clusters(vol, used, pau) > MaxClusters(Fat16)
  {
    var w := vol - used + U32;
    DivModUnique(vol - used, U32, -1, w);
    var q := w / pau;
    Quotient(w, pau);
    Above(pau, 0xFFF6, q);
    assert pau * 0xFFF6 <= 128 * 0xFFF6;
  }

  /** At most one cluster is lost for every sector that is used otherwise. */
  lemma MostClusters(vol: nat, used: nat, pau: nat)
    requires 0 < pau && used <= vol
    ensures vol / pau <= (vol - used) / pau + used
  {
    var n, q := vol / pau, (vol - used) / pau;
    Quotient(vol - used, pau);
    Quotient(vol, pau);
    Above(pau, n, q + used);
    Times(pau, q, used);
    Times(used, 1, pau - 1);
  }

  lemma Bounds(vol: nat, used: nat, pau: nat)
    requires 0 < pau && used <= vol < U32
    ensures Clusters(vol, used, pau) <= Estimate(vol, pau) <= Clusters(vol, used, pau) + used
  {
    FewerClusters(vol, used, pau);
    MostClusters(vol, used, pau);
  }

  lemma Shorter(vol: nat, pau: nat)
    requires 0 < pau
    ensures Estimate(vol, pau) <= vol
  {
    Quotient(vol, pau);
    Times(vol / pau, 1, pau - 1);
  }

  predicate AuOk(au: nat) {
    au == 0 || (au <= 128 && Pow2(au))
  }

  lemma AuOkIs(au: nat)
    requires AuOk(au)
    ensures au == 0 || (au <= 128 && Pow2(au))
  {
  }

  /** How many sectors a FAT32 layout with `n` estimated clusters uses in front of its data. */
  lemma Room32(n: nat, nFat: nat, pad: nat)
    requires 1 <= nFat <= 2 && pad < 0x8000 && n > MaxClusters(Fat16)
    ensures 32 + pad + AllFats((n * 4 + 8 + SS - 1) / SS, nFat) <= n
  {
  }

  lemma Facts32(o: Opts, au: nat)
    requires Usable(o) && Attempt32(o, au).Done?
    ensures var c, pau := Attempt32(o, au).c, PauOf(o, true, au);
            var n := Estimate(o.vol, pau);
            var pad := Pad(32 + AllFats(c.fat, o.nFat), o.block);
            && c.t == Fat32 && c.pau == pau && c.dir == 0 && c.rsv == 32 + pad && MaxClusters(Fat16) < n <= MaxClusters(Fat32)
            && c.fat == (n * 4 + 8 + SS - 1) / SS && c.clusters == Clusters(o.vol, Front(o, c), pau) > MaxClusters(Fat16)
  {
    hide Pow2, Pad, Clusters, AutoAu, AllFats;
  }

  lemma Done32Fits(o: Opts, au: nat)
    requires Usable(o) && AuOk(au) && Attempt32(o, au).Done?
    ensures Fitting(o, Attempt32(o, au).c)
  {
    hide Pow2, Pad, Clusters, AutoAu, Attempt32, PauOf, AllFats, Front;
    Facts32(o, au);
    PauPower(o, true, au);
    var pau := PauOf(o, true, au);
    var n := Estimate(o.vol, pau);
    var c := Attempt32(o, au).c;
    var pad := Pad(32 + AllFats(c.fat, o.nFat), o.block);
    Room32(n, o.nFat, pad);
    FrontIs(o, c);
    Shorter(o.vol, pau);
    Bounds(o.vol, Front(o, c), pau);
    Fits32(o, c, n);
  }

  lemma FrontIs(o: Opts, c: Config)
    ensures Front(o, c) == c.rsv + AllFats(c.fat, o.nFat) + c.dir
  {
  }

  lemma Fits32(o: Opts, c: Config, n: nat)
    requires Usable(o) && c.t == Fat32 && Pow2(c.pau) && 0 < c.pau <= 128 && c.dir == 0 && 32 <= c.rsv < 0x10000 && Front(o, c) <= o.vol
    requires c.fat == (n * 4 + 8 + SS - 1) / SS && MaxClusters(Fat16) < c.clusters <= n <= MaxClusters(Fat32)
    requires c.clusters == Clusters(o.vol, Front(o, c), c.pau) && Front(o, c) % o.block == 0
    ensures Fitting(o, c)
  {
    hide Pow2, Front, Clusters;
    FewerClusters(o.vol, Front(o, c), c.pau);
  }

  /** The sectors a FAT12 or FAT16 layout uses add up to a padded base. */
  lemma Spread(fat0: nat, nFat: nat, dir: nat, pad: nat, rsv: nat, fat: nat)
    requires 1 <= nFat <= 2
    requires rsv == if nFat == 2 && pad % 2 == 1 then 2 else 1
    requires fat == fat0 + Share(if nFat == 2 && pad % 2 == 1 then pad - 1 else pad, nFat)
    ensures rsv + AllFats(fat, nFat) + dir == 1 + AllFats(fat0, nFat) + dir + pad && fat0 <= fat <= fat0 + pad
  {
  }

  /** When a FAT16 layout stands, the estimate was small enough for all its arithmetic. */
  lemma Small16(n: nat, nc: nat, nFat: nat, dir: nat, pad: nat)
    requires 1 <= nFat <= 2 && pad < 0x8000 && dir <= 2048 && MaxClusters(Fat12) < n && nc <= MaxClusters(Fat16) && n < U32
    requires n <= nc + 2 + AllFats(Fat0(n), nFat) + dir + pad
    ensures FatBytes(n) == n * 2 + 4 && Fat0(n) == (n * 2 + 4 + SS - 1) / SS < 0x8000
  {
    assert n < 0x200_0000;
    assert FatBytes(n) == n * 2 + 4;
  }

  lemma Facts16(o: Opts, au: nat)
    requires Usable(o) && Attempt16(o, au).Done?
    ensures var c, pau := Attempt16(o, au).c, PauOf(o, false, au);
            var n := Estimate(o.vol, pau);
            var fat0 := Fat0(n);
            var pad := Pad(1 + AllFats(fat0, o.nFat) + c.dir, o.block);
            var odd := o.nFat == 2 && pad % 2 == 1;
            && c.t == (if n > MaxClusters(Fat12) then Fat16 else Fat12) && c.pau == pau && c.dir == o.nRoot / 16 <= 2048
            && c.rsv == (if odd then 2 else 1) && c.fat == fat0 + Share(if odd then pad - 1 else pad, o.nFat)
            && 1 + AllFats(fat0, o.nFat) + c.dir + pau * 16 <= o.vol
            && c.clusters == Clusters(o.vol, Front(o, c), pau) <= MaxClusters(Fat16)
            && c.t == TypeFor(c.clusters)
  {
    hide Pow2, Pad, Clusters, AutoAu, AllFats, Fat0, Share, Estimate;
  }

  lemma Done16Fits(o: Opts, au: nat)
    requires Usable(o) && AuOk(au) && Attempt16(o, au).Done?
    ensures Fitting(o, Attempt16(o, au).c)
  {
    hide *;
    UsableFacts(o);
    Facts16(o, au);
    AuOkIs(au);
    PauPower(o, false, au);
    var pau := PauOf(o, false, au);
    var n := Estimate(o.vol, pau);
    var c := Attempt16(o, au).c;
    var fat0 := Fat0(n);
    var pad := Pad(1 + AllFats(fat0, o.nFat) + c.dir, o.block);
    Spread(fat0, o.nFat, c.dir, pad, c.rsv, c.fat);
    FrontIs(o, c);
    var used := Front(o, c);
    assert used == 1 + AllFats(fat0, o.nFat) + c.dir + pad;
    Constants();
    if used > o.vol {
      WrappedClusters(o.vol, used, pau);
    } else {
      Shorter(o.vol, pau);
      Bounds(o.vol, used, pau);
      Table16(n, c.clusters, c.t, o.nFat, c.dir, pad);
      Fits16(o, c, fat0, pad);
    }
  }

  lemma Constants()
    ensures SS == 512 && U32 == 0x1_0000_0000
    ensures MaxClusters(Fat12) == 0xFF5 && MaxClusters(Fat16) == 0xFFF5 && MaxClusters(Fat32) == 0x0FFF_FFF5
  {
  }

  lemma UsableFacts(o: Opts)
    requires Usable(o)
    ensures 1 <= o.nFat <= 2 && 0 < o.block <= 0x8000 && 128 <= o.vol < U32
  {
  }

  lemma Fits16(o: Opts, c: Config, fat0: nat, pad: nat)
    requires Usable(o) && Pow2(c.pau) && c.pau <= 128 && Front(o, c) <= o.vol && 0 < c.rsv <= 2 && c.dir == o.nRoot / 16
    requires 0 < fat0 < 0x8000 && TableSize(c.t, c.clusters) <= fat0 * SS && fat0 <= c.fat <= fat0 + pad && pad < 0x8000
    requires c.t == TypeFor(c.clusters) && c.clusters <= MaxClusters(Fat16) && 0 < c.pau
    requires c.clusters == Clusters(o.vol, Front(o, c), c.pau) && Front(o, c) % o.block == 0
    ensures Fitting(o, c)
  {
    hide Pow2, Front, TableSize, Clusters;
    FewerClusters(o.vol, Front(o, c), c.pau);
  }

  lemma Table16(n: nat, nc: nat, t: FatType, nFat: nat, dir: nat, pad: nat)
    requires 1 <= nFat <= 2 && pad < 0x8000 && dir <= 2048 && nc <= n < U32
    requires t == if n > MaxClusters(Fat12) then Fat16 else Fat12
    requires t == Fat16 ==> nc <= MaxClusters(Fat16)
    requires n <= nc + 2 + AllFats(Fat0(n), nFat) + dir + pad
    ensures var fat0 := Fat0(n);
            0 < fat0 < 0x8000 && TableSize(t, nc) <= fat0 * SS
  {
    hide AllFats, FatBytes, TableSize, Fat0;
    if t == Fat16 {
      Small16(n, nc, nFat, dir, pad);
      Size16(n, nc);
    } else {
      Size12(n, nc);
    }
  }

  lemma Size16(n: nat, nc: nat)
    requires nc <= n
    ensures 0 < (n * 2 + 4 + SS - 1) / SS && TableSize(Fat16, nc) <= (n * 2 + 4 + SS - 1) / SS * SS
  {
  }

  lemma Size12(n: nat, nc: nat)
    requires nc <= n <= MaxClusters(Fat12)
    ensures 0 < Fat0(n) < 0x8000 && TableSize(Fat12, nc) <= Fat0(n) * SS
  {
    var b := FatBytes(n);
    assert b == (n * 3 + 1) / 2 + 3 < 0x2000;
    assert Fat0(n) == (b + SS - 1) / SS;
    Bytes12(n, nc);
  }

  lemma Bytes12(n: nat, nc: nat)
    requires nc <= n
    ensures TableSize(Fat12, nc) <= (n * 3 + 1) / 2 + 3
  {
    var h, r := nc / 2, nc % 2;
    DivModUnique((nc + 2) * 3, 2, 3 * h + 3 + r, r);
    DivModUnique(nc * 3 + 1, 2, 3 * h + 2 * r, 1 - r);
  }

  /** A retry keeps the cluster size, or doubles or halves the one it worked with. */
  lemma AgainCases(o: Opts, is32: bool, au: nat)
    requires Usable(o) && Attempt(o, is32, au).Again?
    ensures var x, pau := Attempt(o, is32, au).au, PauOf(o, is32, au);
            x == au || (x == pau / 2 && x > 0) || (x == pau * 2 && x <= 128)
  {
    hide Pow2, Pad, AllFats, Fat0, Share, Estimate, AutoAu, Clusters;
  }

  lemma TwicePower(p: nat)
    requires Pow2(p)
    ensures Pow2(p * 2) && (p > 1 ==> Pow2(p / 2))
  {
    assert p * 2 / 2 == p && p * 2 % 2 == 0;
  }

  /** A retry keeps the cluster size a power of two of at most 128 sectors. */
  lemma AgainOk(o: Opts, is32: bool, au: nat)
    requires Usable(o) && AuOk(au) && Attempt(o, is32, au).Again?
    ensures AuOk(Attempt(o, is32, au).au)
  {
    hide Attempt, Usable, PauOf, Pow2;
    AgainCases(o, is32, au);
    PauPower(o, is32, au);
    TwicePower(PauOf(o, is32, au));
  }

  /** Whatever layout is settled on, it fits. */
  lemma {:induction false} PlanFits(o: Opts, is32: bool, au: nat)
    requires Usable(o) && AuOk(au)
    ensures Plan(o, is32, au).Planned? ==> Fitting(o, Plan(o, is32, au).c)
    decreases !is32, au == 0
  {
    var a := Attempt(o, is32, au);
    if a.Done? {
      if is32 {
        Done32Fits(o, au);
      } else {
        Done16Fits(o, au);
      }
    } else if a.Again? {
      RetryProgress(o, is32, au);
      AgainOk(o, is32, au);
      PlanFits(o, a.is32, a.au);
    }
  }

  datatype Answer = MkfsAborted | InvalidParameter | Ready(o: Opts, c: Config)

  /** The layout for a wish and a drive. */
  function Chosen(w: Wish, d: Drive): Answer {
    if d.sectors < 128 then MkfsAborted
    else if !w.fat && !w.fat32 then InvalidParameter
    else
      var o := Normal(w, d);
      match Plan(o, !w.fat, o.au)
      case Aborted => MkfsAborted
      case Planned(c) => Ready(o, c)
  }

  method Choose(w: Wish, d: Drive) returns (r: Answer)
    requires d.sectors < U32
    ensures r == Chosen(w, d)
  {
    if d.sectors < 128 {
      return MkfsAborted;
    }
    var o := Normal(w, d);
    var is32 := w.fat32 && !w.fat;
    if !is32 && !w.fat {
      return InvalidParameter;
    }
    var p := PlanVolume(o, is32);
    match p
    case Aborted => r := MkfsAborted;
    case Planned(c) => r := Ready(o, c);
  }

  /** Every layout that formatting settles on fits its volume: the data area is aligned to the block size,
      the FAT is large enough for every entry, and the type is the one that mounting will find. */
  lemma ChosenFits(w: Wish, d: Drive)
    requires d.sectors < U32 && Chosen(w, d).Ready?
    ensures Usable(Chosen(w, d).o) && Chosen(w, d).o.vol == d.sectors && Fitting(Chosen(w, d).o, Chosen(w, d).c)
  {
    NormalUsable(w, d);
    var o := Normal(w, d);
    PlanFits(o, !w.fat, o.au);
  }
}
