/** What seeking and truncating do to an open file and to the table. */
module FatSeekState {
  import opened Words
  import opened FatEntry
  import opened FatVolume
  import opened FatTable
  import opened FatChain
  import opened FatSectors
  import opened FatContent
  import opened FatFileState
  import opened FatWriteState

  // ---------- seeking ----------

  /** The file with its pointer at byte `p` and its `i`-th cluster as the current one. */
  ghost function SoughtTo(s: Snap, p: nat, i: nat): Snap {
    s.(st := s.st.(fptr := p, ci := i, clust := if i < |s.ch| then s.ch[i] else 0))
  }

  /** A seek to `p`: the same file, standing at `p`; at a sector boundary neither the buffer nor a data
      sector is touched. */
  ghost predicate SeekDone(y: Layout, s: Snap, t: Snap, p: nat) {
    && SameFile(y, s, t) && Ok(y, t) && t.st.fptr == p
    && (p % SS == 0 ==> t.st.cache == s.st.cache && SameButFat(s.d, t.d, y))
  }

  /** The file with its pointer at its start; on the way that may be behind its end. */
  ghost function Home(s: Snap): Snap {
    s.(st := s.st.(fptr := 0))
  }

  /** The same bytes and the same buffer, and a longer chain only for a target behind the end. */
  ghost predicate Grown(y: Layout, s: Snap, t: Snap, p: nat) {
    && Core(y, Home(t)) && BytesOf(y, Home(t)) == BytesOf(y, s) && s.ch <= t.ch && SameButFat(s.d, t.d, y)
    && t.st.objsize == s.st.objsize && t.st.cache == s.st.cache
    && (p <= s.st.objsize ==> t.f == s.f && t.ch == s.ch)
  }

  /** Between two steps of a seek the pointer stands at the start of the `ci`-th cluster and there
      are `rest` bytes to go. */
  ghost predicate Seeking(y: Layout, s: Snap, t: Snap, p: nat, rest: nat) {
    && Grown(y, s, t, p) && t == SoughtTo(t, t.st.ci * Bcs(y), t.st.ci)
    && t.st.ci < |t.ch| && 0 < rest && t.st.fptr + rest == p && 0 < Bcs(y)
  }

  /** The disk was full before the target was reached: the pointer stands behind the last cluster. */
  ghost predicate Stopped(y: Layout, s: Snap, t: Snap, p: nat) {
    && Grown(y, s, t, p) && s.st.objsize < p && NoneFree(t.f) && t.ch != []
    && t == SoughtTo(t, |t.ch| * Bcs(y), |t.ch| - 1) && t.st.fptr < p && 0 < Bcs(y)
  }

  lemma ClusterThere(y: Layout, s: Snap, i: nat, p: nat)
    requires Core(y, Home(s)) && i < |s.ch|
    ensures 2 <= s.ch[i] < |s.f| && (i + 1 < |s.ch| ==> s.f[s.ch[i]] == s.ch[i + 1])
    ensures i + 1 == |s.ch| && p <= s.st.objsize ==> p <= i * Bcs(y) + Bcs(y)
  {
    SectsLen(y, s.ch);
    BcsIndex(y, |s.ch|);
    Distribute(i, Bcs(y));
  }

  /** Where the pointer stands makes no difference to the bytes. */
  lemma SoughtGrown(y: Layout, s: Snap, p: nat, q: nat, i: nat)
    requires Core(y, s)
    ensures Grown(y, s, SoughtTo(s, q, i), p)
  {
  }

  /** The start of the cluster that holds the byte in front of the file pointer. */
  lemma BaseOf(p: nat, i: nat, bcs: nat)
    requires i * bcs < p <= i * bcs + bcs
    ensures (p - 1) / bcs == i && p - 1 - (p - 1) % bcs == i * bcs
  {
    DivModUnique(p - 1, bcs, i, p - 1 - i * bcs);
  }

  /** Starting from the current cluster when the target is not in front of it. */
  lemma FromCurrent(y: Layout, s: Snap, p: nat)
    requires Ok(y, s) && 0 < s.st.fptr && 0 < p && 0 < Bcs(y)
    requires (p - 1) / Bcs(y) >= (s.st.fptr - 1) / Bcs(y)
    ensures var base := s.st.fptr - 1 - (s.st.fptr - 1) % Bcs(y);
            && base == s.st.ci * Bcs(y) < p
            && Seeking(y, s, SoughtTo(s, base, s.st.ci), p, p - base)
            && SoughtTo(s, base, s.st.ci) == s.(st := s.st.(fptr := base))
  {
    hide Ok, Core, Grown, SoughtTo, Bcs;
    CurrentFacts(y, s);
    BaseOf(s.st.fptr, s.st.ci, Bcs(y));
    InFront(s.st.ci, p, Bcs(y));
    SoughtGrown(y, s, p, s.st.ci * Bcs(y), s.st.ci);
    SoughtHere(s, s.st.ci * Bcs(y));
  }

  lemma InFront(i: nat, p: nat, bcs: nat)
    requires 0 < bcs && 0 < p && (p - 1) / bcs >= i
    ensures i * bcs < p
  {
    var q: int, r: int := (p - 1) / bcs, (p - 1) % bcs;
    Monotone(i, q, bcs);
    assert p - 1 == bcs * q + r;
  }

  lemma SoughtHere(s: Snap, base: nat)
    requires s.st.ci < |s.ch| && s.st.clust == s.ch[s.st.ci]
    ensures var t := SoughtTo(s, base, s.st.ci);
            t == s.(st := s.st.(fptr := base)) && t == SoughtTo(t, base, t.st.ci) && t.st.ci == s.st.ci && t.ch == s.ch && t.st.fptr == base
            && t.st.objsize == s.st.objsize
  {
  }

  lemma CurrentFacts(y: Layout, s: Snap)
    requires Ok(y, s) && 0 < s.st.fptr
    ensures Core(y, s) && s.st.ci < |s.ch| && s.st.clust == s.ch[s.st.ci] && s.st.fptr <= s.st.objsize
    ensures s.st.ci * Bcs(y) < s.st.fptr <= s.st.ci * Bcs(y) + Bcs(y)
  {
  }

  /** Starting from the first cluster. */
  lemma FromStart(y: Layout, s: Snap, p: nat)
    requires Ok(y, s) && 0 < p && s.ch != [] && 0 < Bcs(y)
    ensures s.st.sclust == s.ch[0] && s.st.sclust >= 2
    ensures SoughtTo(s, 0, 0) == s.(st := s.st.(fptr := 0, ci := 0, clust := s.st.sclust))
    ensures Seeking(y, s, SoughtTo(s, 0, 0), p, p)
  {
    assert 0 * Bcs(y) == 0;
    SoughtGrown(y, s, p, 0, 0);
  }

  /** A file without clusters is empty. */
  lemma NoClusters(y: Layout, s: Snap)
    requires Ok(y, s) && s.ch == []
    ensures s.st.sclust == 0 && s.st.fptr == 0 == s.st.objsize
  {
    SectsLen(y, s.ch);
  }

  /** Starting from a first cluster that had to be allocated. */
  lemma FromNew(y: Layout, s: Snap, d: Disk, g: Fat, r: nat, p: nat, eoc: nat)
    requires Ok(y, s) && s.ch == [] && 0 < p && 0 < Bcs(y) && r != 0 && eoc >= |s.f|
    requires Sectored(d) && SameButFat(s.d, d, y) && Stretch(s.f, s.ch, g, 0, r, false, eoc)
    ensures var u := Snap(d, g, [r], s.st.(sclust := r));
            && SoughtTo(u, 0, 0) == u.(st := u.st.(fptr := 0, ci := 0, clust := r))
            && Seeking(y, s, SoughtTo(u, 0, 0), p, p) && r >= 2
  {
    NoClusters(y, s);
    FreshCluster(y, s, d, g, r, eoc);
    assert 0 * Bcs(y) == 0 && [] + [r] == [r];
  }

  /** What is asked for in front of the next cluster on the way. */
  lemma SeekAsk(y: Layout, s: Snap, t: Snap, p: nat, rest: nat)
    requires Seeking(y, s, t, p, rest) && rest > Bcs(y)
    ensures 2 <= t.st.clust < |t.f| && t.st.ci < |t.ch| && t.st.clust == t.ch[t.st.ci]
    ensures t.st.ci + 1 < |t.ch| ==> t.f[t.st.clust] == t.ch[t.st.ci + 1] && 2 <= t.ch[t.st.ci + 1] < |t.f|
    ensures t.st.ci + 1 >= |t.ch| ==> t.st.clust == t.ch[|t.ch| - 1] && s.st.objsize < p
  {
    ClusterThere(y, t, t.st.ci, p);
    if t.st.ci + 1 < |t.ch| {
      ClusterThere(y, t, t.st.ci + 1, p);
    }
  }

  /** One cluster on: the next one of the chain, or one that was appended to it. */
  lemma SeekStep(y: Layout, s: Snap, t: Snap, d: Disk, g: Fat, r: nat, p: nat, rest: nat, eoc: nat)
    requires Seeking(y, s, t, p, rest) && rest > Bcs(y) && Sectored(d) && SameButFat(t.d, d, y) && eoc >= |t.f|
    requires Stretch(t.f, t.ch, g, t.st.clust, r, t.st.ci + 1 < |t.ch|, eoc) && r != 0
    ensures var u := Snap(d, g, GrownBy(t.ch, r, t.st.ci + 1 < |t.ch|), t.st);
            && u.st.ci + 1 < |u.ch| && r == u.ch[u.st.ci + 1] && 2 <= r < |u.f| == |t.f|
            && Seeking(y, s, SoughtTo(u, u.st.fptr + Bcs(y), u.st.ci + 1), p, rest - Bcs(y))
  {
    hide Grown, Bcs, IsFile;
    SeekAsk(y, s, t, p, rest);
    var u := Snap(d, g, GrownBy(t.ch, r, t.st.ci + 1 < |t.ch|), t.st);
    StepGrown(y, s, t, d, g, r, p, rest, eoc);
    Distribute(t.st.ci, Bcs(y));
    SoughtAgain(y, s, u, p, u.st.fptr + Bcs(y), u.st.ci + 1);
  }

  lemma StepGrown(y: Layout, s: Snap, t: Snap, d: Disk, g: Fat, r: nat, p: nat, rest: nat, eoc: nat)
    requires Seeking(y, s, t, p, rest) && rest > Bcs(y) && Sectored(d) && SameButFat(t.d, d, y) && eoc >= |t.f|
    requires Stretch(t.f, t.ch, g, t.st.clust, r, t.st.ci + 1 < |t.ch|, eoc) && r != 0
    ensures Grown(y, s, Snap(d, g, GrownBy(t.ch, r, t.st.ci + 1 < |t.ch|), t.st), p)
    ensures |g| == |t.f|
  {
    SeekAsk(y, s, t, p, rest);
    hide Seeking, BytesOf, Core, SoughtTo;
    GrownFacts(y, s, t, p, rest);
    if t.st.ci + 1 < |t.ch| {
      OffFatSame(y, Home(t), d);
      assert Home(t).(d := d) == Home(Snap(d, g, t.ch, t.st));
    } else {
      FreshCluster(y, Home(t), d, g, r, eoc);
      assert Home(Snap(d, g, t.ch + [r], t.st)) == Snap(d, g, t.ch + [r], Home(t).st);
    }
  }

  lemma GrownFacts(y: Layout, s: Snap, t: Snap, p: nat, rest: nat)
    requires Seeking(y, s, t, p, rest)
    ensures Grown(y, s, t, p) && t.ch != []
  {
  }

  lemma SoughtAgain(y: Layout, s: Snap, u: Snap, p: nat, q: nat, i: nat)
    requires Grown(y, s, u, p)
    ensures Grown(y, s, SoughtTo(u, q, i), p)
  {
    assert Core(y, Home(SoughtTo(u, q, i))) && BytesOf(y, Home(SoughtTo(u, q, i))) == BytesOf(y, Home(u));
  }

  /** No cluster on: the disk is full. */
  lemma SeekStops(y: Layout, s: Snap, t: Snap, d: Disk, g: Fat, p: nat, rest: nat, eoc: nat)
    requires Seeking(y, s, t, p, rest) && rest > Bcs(y) && Sectored(d) && SameButFat(t.d, d, y)
    requires Stretch(t.f, t.ch, g, t.st.clust, 0, t.st.ci + 1 < |t.ch|, eoc)
    ensures t.st.ci + 1 == |t.ch| && GrownBy(t.ch, 0, false) == t.ch
    ensures var u := Snap(d, g, t.ch, t.st);
            && SoughtTo(u, u.st.fptr + Bcs(y), u.st.ci) == u.(st := u.st.(fptr := u.st.fptr + Bcs(y)))
            && Stopped(y, s, SoughtTo(u, u.st.fptr + Bcs(y), u.st.ci), p)
  {
    SeekAsk(y, s, t, p, rest);
    OffFatSame(y, Home(t), d);
    Distribute(t.st.ci, Bcs(y));
    var u := Snap(d, g, t.ch, t.st);
    assert Home(t).(d := d) == Home(u);
    assert Grown(y, s, u, p);
    SoughtAgain(y, s, u, p, u.st.fptr + Bcs(y), u.st.ci);
  }

  /** The pointer is where the seek leads: at the target, or behind the last cluster of a full disk. */
  ghost predicate Reached(y: Layout, s: Snap, t: Snap, p: nat) {
    && Grown(y, s, t, p) && AtCluster(y, t.ch, t.st) && t.st.fptr <= p && t.st.fptr <= |t.ch| * Bcs(y)
    && (t.st.fptr < p ==> s.st.objsize < p && NoneFree(t.f) && t.st.fptr == |t.ch| * Bcs(y))
  }

  /** The pointer lands in the cluster that holds the byte in front of it, and in the middle of a
      sector that sector is `rest / SS` sectors into the cluster. */
  lemma SeekLands(y: Layout, s: Snap, t: Snap, p: nat, rest: nat)
    requires Seeking(y, s, t, p, rest) && rest <= Bcs(y)
    ensures var u := SoughtTo(t, p, t.st.ci);
            && u == t.(st := t.st.(fptr := p)) && p == t.st.fptr + rest
            && Reached(y, s, u, p) && p % SS == rest % SS
            && 2 <= u.st.clust < |u.f|
    ensures rest % SS != 0 ==> rest / SS < y.csize && p / SS < |Sects(y, t.ch)|
    ensures rest % SS != 0 ==> Sects(y, t.ch)[p / SS] == y.ClusterSector(t.st.clust) + rest / SS
  {
    var i := t.st.ci;
    ClusterThere(y, t, i, p);
    SoughtAgain(y, s, t, p, p, i);
    Distribute(i, Bcs(y));
    Monotone(i + 1, |t.ch|, Bcs(y));
    BcsIndex(y, i);
    DivModUnique(p, SS, i * y.csize + rest / SS, rest % SS);
    if rest % SS != 0 {
      assert rest / SS < y.csize;
      SectsAt(y, t.ch, i, rest / SS);
    }
  }

  lemma SeekEndsFull(y: Layout, s: Snap, t: Snap, p: nat)
    requires Stopped(y, s, t, p)
    ensures Reached(y, s, t, p) && t.st.fptr % SS == 0
  {
    Distribute(|t.ch| - 1, Bcs(y));
    BcsIndex(y, |t.ch|);
    DivModUnique(t.st.fptr, SS, |t.ch| * y.csize, 0);
  }

  /** Not even a first cluster could be allocated. */
  lemma SeekStaysEmpty(y: Layout, s: Snap, d: Disk, p: nat)
    requires Ok(y, s) && s.ch == [] && 0 < p && NoneFree(s.f) && Sectored(d) && SameButFat(s.d, d, y)
    ensures Reached(y, s, s.(d := d, st := s.st.(fptr := 0, ci := 0, clust := 0)), p)
  {
    NoClusters(y, s);
    OffFatSame(y, s, d);
    assert 0 * Bcs(y) == 0;
  }

  lemma SeekToStart(y: Layout, s: Snap)
    requires Ok(y, s)
    ensures Reached(y, s, s.(st := s.st.(fptr := 0)), 0)
  {
    assert 0 <= |s.ch| * Bcs(y);
  }

  // ---------- the clusters handed out ----------

  /** How many clusters a file needs for a position. */
  function Needed(y: Layout, p: nat): nat {
    if p == 0 || Bcs(y) == 0 then 0 else (p - 1) / Bcs(y) + 1
  }

  /** The clusters that a seek to `p` leaves the file, and the table with them. */
  ghost function Room(y: Layout, s: Snap, last: nat, p: nat): Supply {
    Handed(Supply(s.f, last, s.ch), Needed(y, p), Eoc(y))
  }

  /** Where it ends: at the target, or behind the last cluster. */
  ghost function Landing(y: Layout, s: Snap, last: nat, p: nat): nat {
    var n := |Room(y, s, last, p).ch| * Bcs(y);
    if n < p then n else p
  }

  /** On the way what is still to be handed out leads there. */
  ghost predicate OnSupply(y: Layout, s: Snap, last: nat, t: Snap, now: nat, p: nat) {
    Room(y, t, now, p) == Room(y, s, last, p)
  }

  /** All of it has been handed out. */
  ghost predicate Allotted(y: Layout, s: Snap, last: nat, t: Snap, now: nat, p: nat) {
    Supply(t.f, now, t.ch) == Room(y, s, last, p)
  }

  lemma SupplySame(y: Layout, s: Snap, last: nat, t: Snap, now: nat, u: Snap, p: nat)
    requires OnSupply(y, s, last, t, now, p) && u.f == t.f && u.ch == t.ch
    ensures OnSupply(y, s, last, u, now, p)
  {
  }

  lemma NeededMore(y: Layout, i: nat, p: nat, rest: nat)
    requires 0 < Bcs(y) && i * Bcs(y) + rest == p && 0 < rest
    ensures rest <= Bcs(y) ==> Needed(y, p) == i + 1
    ensures rest > Bcs(y) ==> Needed(y, p) > i + 1
  {
    var b := Bcs(y);
    if rest <= b {
      DivModUnique(p - 1, b, i, rest - 1);
    } else {
      var q := (p - 1) / b;
      Distribute(i, b);
      assert p - 1 == b * q + (p - 1) % b;
      if q <= i {
        Monotone(q, i, b);
      }
    }
  }

  /** The first cluster of a file that had none. */
  lemma SupplyFirst(y: Layout, s: Snap, last: nat, t: Snap, r: nat, after: nat, p: nat)
    requires s.ch == [] && 0 < p && 0 < Bcs(y) && Stretch(s.f, s.ch, t.f, 0, r, false, Eoc(y)) && t.ch == GrownBy(s.ch, r, false)
    requires Hands(s.f, last, 0, r, false, after) && Sane(s.f)
    ensures r != 0 ==> OnSupply(y, s, last, t, after, p)
    ensures r == 0 ==> Allotted(y, s, last, t, after, p)
  {
    assert Needed(y, p) > 0;
    if r != 0 {
      HandedStep(s.f, last, s.ch, t.f, r, after, Needed(y, p), Eoc(y));
    } else {
      HandedAll(s.f, last, s.ch, Needed(y, p), Eoc(y));
    }
  }

  /** The next cluster on the way. */
  lemma SupplyStep(y: Layout, s: Snap, last: nat, t: Snap, now: nat, u: Snap, r: nat, after: nat, p: nat, rest: nat)
    requires Seeking(y, s, t, p, rest) && rest > Bcs(y) && OnSupply(y, s, last, t, now, p) && Sane(t.f)
    requires Stretch(t.f, t.ch, u.f, t.st.clust, r, t.st.ci + 1 < |t.ch|, Eoc(y)) && u.ch == GrownBy(t.ch, r, t.st.ci + 1 < |t.ch|)
    requires Hands(t.f, now, t.st.clust, r, t.st.ci + 1 < |t.ch|, after)
    ensures r != 0 ==> OnSupply(y, s, last, u, after, p)
    ensures r == 0 ==> t.st.ci + 1 < |t.ch| || Allotted(y, s, last, u, after, p)
  {
    SeekAsk(y, s, t, p, rest);
    NeededMore(y, t.st.ci, p, rest);
    if t.st.ci + 1 >= |t.ch| {
      if r != 0 {
        HandedStep(t.f, now, t.ch, u.f, r, after, Needed(y, p), Eoc(y));
      } else {
        HandedAll(t.f, now, t.ch, Needed(y, p), Eoc(y));
      }
    }
  }

  lemma SupplyDone(y: Layout, s: Snap, last: nat, t: Snap, now: nat, p: nat, rest: nat)
    requires Seeking(y, s, t, p, rest) && rest <= Bcs(y) && OnSupply(y, s, last, t, now, p)
    ensures Allotted(y, s, last, t, now, p)
  {
    NeededMore(y, t.st.ci, p, rest);
    HandedEnough(Supply(t.f, now, t.ch), Needed(y, p), Eoc(y));
  }

  lemma SupplyNone(y: Layout, s: Snap, last: nat)
    ensures Allotted(y, s, last, s, last, 0)
  {
    HandedEnough(Supply(s.f, last, s.ch), 0, Eoc(y));
  }

  // ---------- the end of a seek ----------

  /** The size is raised to where the pointer stands. */
  ghost function Sized(t: Snap): Snap {
    t.(st := t.st.(objsize := Larger(t.st.fptr, t.st.objsize)))
  }

  /** In the middle of a sector the buffer is made to show it. */
  ghost function Filled(t: Snap, sect: nat): Snap {
    if t.st.fptr % SS != 0 && sect != t.st.cache.sect then Loaded(Flushed(t), sect) else t
  }

  /** Sector `sect` holds some of the first `size` bytes of the clusters `ch`. */
  ghost predicate Covers(y: Layout, ch: seq<nat>, size: nat, sect: nat) {
    exists k :: 0 <= k < |Sects(y, ch)| && k * SS < size && Sects(y, ch)[k] == sect
  }

  /** Byte `q` of the clusters `ch` lies in sector `sect`. */
  ghost predicate LiesIn(y: Layout, ch: seq<nat>, q: nat, sect: nat) {
    q / SS < |Sects(y, ch)| && Sects(y, ch)[q / SS] == sect
  }

  /** The buffer is to be written back or shows what is on the disk. */
  ghost predicate InStep(s: Snap) {
    s.st.cache.dirty || s.st.cache.sect >= |s.d| || s.st.cache.buf == s.d[s.st.cache.sect]
  }

  /** The bytes of the file up to size `n`. */
  ghost function Shrunk(t: Snap, n: nat): Snap {
    t.(st := t.st.(fptr := 0, objsize := n))
  }

  /** A seek to `p` will be misled: the buffer is out of step, the sector it shows is one that the file has
      or is about to get, and it will not be loaded because it is the one to stand in or there is none to
      load.  All this is known before the seek. */
  ghost predicate Misled(y: Layout, s: Snap, last: nat, p: nat) {
    var ch, q, sect := Room(y, s, last, p).ch, Landing(y, s, last, p), s.st.cache.sect;
    !InStep(s) && Covers(y, ch, q, sect) && (q % SS != 0 ==> LiesIn(y, ch, q, sect))
  }

  /** A seek behind the end: the file gets the clusters handed out, ends where the pointer stands, and its
      old bytes are there.  It is in order exactly unless the seek was misled; then buffer and disk still
      differ. */
  ghost predicate SeekGrown(y: Layout, s: Snap, last: nat, t: Snap, after: nat, p: nat) {
    && Supply(t.f, after, t.ch) == Room(y, s, last, p) && t.st.fptr == t.st.objsize == Landing(y, s, last, p) >= s.st.objsize
    && (t.st.fptr < p ==> NoneFree(t.f))
    && s.ch <= t.ch && OnlyChain(s.d, t.d, y, t.ch)
    && Core(y, Shrunk(t, s.st.objsize)) && BytesOf(y, Shrunk(t, s.st.objsize)) == BytesOf(y, s)
    && (Ok(y, t) <==> !Misled(y, s, last, p))
    && (Misled(y, s, last, p) ==> t.st.cache == s.st.cache && SameButFat(s.d, t.d, y))
  }

  /** With a buffer in step a seek behind the end leaves the file in order. */
  lemma InStepGrows(y: Layout, s: Snap, last: nat, t: Snap, after: nat, p: nat)
    requires SeekGrown(y, s, last, t, after, p) && InStep(s)
    ensures Ok(y, t)
  {
  }

  lemma OnlyTables(d: Disk, e: Disk, y: Layout, ch: seq<nat>)
    requires SameButFat(d, e, y)
    ensures OnlyChain(d, e, y, ch)
  {
  }

  lemma FlushedShrunk(t: Snap, n: nat)
    ensures Shrunk(Flushed(t), n) == Flushed(Shrunk(t, n)) && |Flushed(t).d| == |t.d|
    ensures Flushed(t).f == t.f && Flushed(t).ch == t.ch && Flushed(t).st == t.st.(cache := Flushed(t).st.cache)
  {
  }

  lemma LoadedShrunk(t: Snap, n: nat, sect: nat)
    requires sect < |t.d|
    ensures Shrunk(Loaded(t, sect), n) == Loaded(Shrunk(t, n), sect) && Loaded(t, sect).d == t.d
    ensures Loaded(t, sect).f == t.f && Loaded(t, sect).ch == t.ch && Loaded(t, sect).st == t.st.(cache := Loaded(t, sect).st.cache)
  {
  }

  lemma SizedShrunk(t: Snap)
    ensures Shrunk(Sized(t), t.st.objsize) == Home(t) && Sized(t).f == t.f && Sized(t).ch == t.ch && Sized(t).d == t.d
    ensures Sized(t).st.fptr == t.st.fptr && Sized(t).st.cache == t.st.cache
  {
  }

  lemma FilledSame(y: Layout, s: Snap, t: Snap, p: nat, sect: nat)
    requires Reached(y, s, t, p) && (t.st.fptr % SS != 0 ==> sect < |t.d|)
    ensures var u := Filled(Sized(t), sect);
            && SameFile(y, Home(t), Shrunk(u, s.st.objsize)) && u.st == Sized(t).st.(cache := u.st.cache)
            && u.ch == t.ch && u.f == t.f && |u.d| == |t.d|
  {
    var z, n := Sized(t), s.st.objsize;
    assert Core(y, Home(t)) && n == t.st.objsize && |Home(t).d| == |t.d|;
    hide Reached, SameFile, Core, Flushed, Loaded, Sized, Home, Shrunk;
    SizedShrunk(t);
    SameAsIs(y, Home(t));
    if t.st.fptr % SS != 0 && sect != t.st.cache.sect {
      FlushedSame(y, Home(t));
      FlushedShrunk(z, n);
      LoadedShrunk(Flushed(z), n, sect);
      SameTable(y, Home(t), Flushed(Home(t)));
      LoadedSame(y, Flushed(Home(t)), sect);
      SameTwice(y, Home(t), Flushed(Home(t)), Loaded(Flushed(Home(t)), sect));
    }
  }

  lemma FilledStands(y: Layout, s: Snap, t: Snap, p: nat, sect: nat)
    requires Reached(y, s, t, p)
    requires t.st.fptr % SS != 0 ==> t.st.fptr / SS < |Sects(y, t.ch)| && Sects(y, t.ch)[t.st.fptr / SS] == sect && sect < |t.d|
    ensures var u := Filled(Sized(t), sect); AtCluster(y, u.ch, u.st) && AtSector(Sects(y, u.ch), u.st)
  {
    hide Grown;
  }

  /** A seek inside the file. */
  lemma SeekWithin(y: Layout, s: Snap, t: Snap, p: nat, sect: nat)
    requires Core(y, s) && Reached(y, s, t, p) && p <= s.st.objsize
    requires t.st.fptr % SS != 0 ==> t.st.fptr / SS < |Sects(y, t.ch)| && Sects(y, t.ch)[t.st.fptr / SS] == sect && sect < |t.d|
    ensures SeekDone(y, s, Filled(Sized(t), sect), p)
  {
    var u := Filled(Sized(t), sect);
    FilledSame(y, s, t, p, sect);
    FilledStands(y, s, t, p, sect);
    OnlyTables(s.d, t.d, y, s.ch);
    OnlyTwice(s.d, t.d, u.d, y, s.ch);
    assert t.f == s.f && t.ch == s.ch && t.st.fptr == p;
    hide Reached, AtCluster, AtSector, Filled, OnlyChain;
    PointerFree(y, u);
  }

  lemma PointerFree(y: Layout, u: Snap)
    requires Core(y, Shrunk(u, u.st.objsize)) && u.st.fptr <= u.st.objsize
    ensures Core(y, u) && BytesOf(y, u) == BytesOf(y, Shrunk(u, u.st.objsize))
  {
  }

  /** A file that is larger is in order exactly if its buffer is in step or shows another sector. */
  lemma LargerOk(y: Layout, u: Snap, n: nat)
    requires Core(y, Shrunk(u, n)) && n <= u.st.objsize == u.st.fptr <= |u.ch| * Bcs(y)
    requires AtCluster(y, u.ch, u.st) && AtSector(Sects(y, u.ch), u.st)
    ensures Ok(y, u) <==> InStep(u) || !Covers(y, u.ch, u.st.objsize, u.st.cache.sect)
  {
    SectsLen(y, u.ch);
    BcsIndex(y, |u.ch|);
    hide IsFile, Layout.Sound, AtCluster, AtSector;
    assert CacheOk(u.d, Sects(y, u.ch), u.st.cache, n);
    assert CacheOk(u.d, Sects(y, u.ch), u.st.cache, u.st.objsize) <==> InStep(u) || !Covers(y, u.ch, u.st.objsize, u.st.cache.sect);
  }

  /** What the sectors of the file hold does not change with the tables. */
  lemma InStepBefore(y: Layout, s: Snap, t: Snap, p: nat)
    requires Reached(y, s, t, p) && Covers(y, t.ch, Sized(t).st.objsize, s.st.cache.sect)
    ensures InStep(Sized(t)) <==> InStep(s)
  {
    var k :| 0 <= k < |Sects(y, t.ch)| && Sects(y, t.ch)[k] == t.st.cache.sect;
    SectInData(y, |t.d|, t.f, t.ch, k);
  }

  /** A seek behind the end of the file. */
  lemma SeekBeyond(y: Layout, s: Snap, last: nat, t: Snap, after: nat, p: nat, sect: nat)
    requires Core(y, s) && Reached(y, s, t, p) && p > s.st.objsize && Allotted(y, s, last, t, after, p)
    requires t.st.fptr % SS != 0 ==> t.st.fptr / SS < |Sects(y, t.ch)| && Sects(y, t.ch)[t.st.fptr / SS] == sect && sect < |t.d|
    ensures SeekGrown(y, s, last, Filled(Sized(t), sect), after, p)
  {
    var u := Filled(Sized(t), sect);
    FilledSame(y, s, t, p, sect);
    FilledStands(y, s, t, p, sect);
    OnlyTables(s.d, t.d, y, t.ch);
    OnlyTwice(s.d, t.d, u.d, y, t.ch);
    SizeReached(y, s, t, p);
    LandingIs(y, s, last, t, after, p);
    FilledMisled(y, s, last, t, after, p, sect);
    hide Filled, OnlyChain, InStep, Covers, AtCluster, AtSector, Misled, Room, Landing;
    LargerOk(y, u, s.st.objsize);
  }

  lemma LandingIs(y: Layout, s: Snap, last: nat, t: Snap, after: nat, p: nat)
    requires Reached(y, s, t, p) && Allotted(y, s, last, t, after, p)
    ensures Landing(y, s, last, p) == t.st.fptr && Room(y, s, last, p).ch == t.ch
  {
  }

  lemma SizeReached(y: Layout, s: Snap, t: Snap, p: nat)
    requires Reached(y, s, t, p) && p > s.st.objsize
    ensures s.st.objsize <= t.st.fptr == Sized(t).st.objsize
  {
    SectsLen(y, t.ch);
    BcsIndex(y, |t.ch|);
  }

  /** The buffer at the end of the seek shows something else than the disk exactly if it was misled. */
  lemma FilledMisled(y: Layout, s: Snap, last: nat, t: Snap, after: nat, p: nat, sect: nat)
    requires Reached(y, s, t, p) && Allotted(y, s, last, t, after, p) && t.st.fptr >= t.st.objsize
    requires t.st.fptr % SS != 0 ==> LiesIn(y, t.ch, t.st.fptr, sect) && sect < |t.d|
    ensures var u := Filled(Sized(t), sect);
            && (InStep(u) || !Covers(y, u.ch, u.st.objsize, u.st.cache.sect) <==> !Misled(y, s, last, p))
            && (Misled(y, s, last, p) ==> u.st.cache == s.st.cache && SameButFat(s.d, u.d, y))
  {
    LandingIs(y, s, last, t, after, p);
    hide Room, Landing;
    var u, c := Filled(Sized(t), sect), s.st.cache.sect;
    if t.st.fptr % SS != 0 && sect != c {
      assert InStep(u) && !LiesIn(y, t.ch, t.st.fptr, c);
    } else {
      assert u == Sized(t);
      if Covers(y, t.ch, t.st.fptr, c) {
        InStepBefore(y, s, t, p);
      }
    }
  }

  /** With the file in order, its bytes are the old ones and some that were on the disk. */
  lemma GrownBytes(y: Layout, s: Snap, last: nat, t: Snap, after: nat, p: nat)
    requires SeekGrown(y, s, last, t, after, p) && Ok(y, t)
    ensures |BytesOf(y, s)| == s.st.objsize <= |BytesOf(y, t)| == t.st.fptr
    ensures BytesOf(y, t)[..s.st.objsize] == BytesOf(y, s)
  {
  }

  lemma SameAsIs(y: Layout, s: Snap)
    requires Core(y, s)
    ensures SameFile(y, s, s)
  {
  }

  /** Whatever way two seeks took, from the current cluster or from the first one, at the same
      byte of the same file they reached the same cluster. */
  lemma SeekReachesOneCluster(y: Layout, s: Snap, t: Snap, u: Snap, p: nat)
    requires SeekDone(y, s, t, p) && SeekDone(y, s, u, p) && p > 0
    ensures t.st.clust == u.st.clust && t.st.ci == u.st.ci == (p - 1) / Bcs(y)
    ensures t.st.clust == s.ch[(p - 1) / Bcs(y)]
  {
    BaseOf(p, t.st.ci, Bcs(y));
    BaseOf(p, u.st.ci, Bcs(y));
  }

  // ---------- truncating ----------

  /** How many clusters stay when the file is cut at the file pointer. */
  ghost function Kept(s: Snap): nat {
    if s.st.fptr == 0 then 0 else s.st.ci + 1
  }

  /** A file cut at its file pointer: the bytes before it stay, and so do the clusters that hold
      them and no other.  A dirty buffer is written back, even to a sector that was cut off. */
  ghost predicate TruncateDone(y: Layout, s: Snap, t: Snap) {
    && Ok(y, t) && t.st.fptr == t.st.objsize == s.st.fptr <= |BytesOf(y, s)|
    && BytesOf(y, t) == BytesOf(y, s)[..s.st.fptr]
    && Kept(s) <= |s.ch| && OnlyChain(s.d, t.d, y, s.ch)
    && t.ch == (if s.st.fptr < s.st.objsize then s.ch[..Kept(s)] else s.ch)
    && var u := if s.st.fptr < s.st.objsize then Flushed(s) else s;
       t.st.cache == u.st.cache && SameButFat(u.d, t.d, y)
  }

  /** The table after the cut. */
  ghost function CutTable(s: Snap, eoc: nat): Fat {
    if IsChain(s.f, s.ch) && Kept(s) < |s.ch| then Cut(s.f, s.ch, Kept(s), eoc) else s.f
  }

  /** The fields of a file cut at its file pointer. */
  ghost function CutFields(st: FilSt): FilSt {
    st.(objsize := st.fptr, sclust := if st.fptr == 0 then 0 else st.sclust)
  }

  lemma KeptFits(y: Layout, s: Snap)
    requires Ok(y, s) && s.st.fptr < s.st.objsize
    ensures Kept(s) <= |s.ch| && s.ch != [] && IsChain(s.f, s.ch) && s.st.sclust == s.ch[0]
    ensures s.st.fptr > 0 ==> s.st.clust == s.ch[s.st.ci] && 2 <= s.st.clust < |s.f|
    ensures s.st.fptr > 0 && Kept(s) < |s.ch| ==> s.f[s.st.clust] == s.ch[Kept(s)]
    ensures s.st.fptr > 0 && Kept(s) == |s.ch| ==> s.f[s.st.clust] >= |s.f|
    ensures s.st.fptr > 0 ==> (Kept(s) - 1) * Bcs(y) < s.st.fptr <= Kept(s) * Bcs(y)
  {
    if s.ch == [] {
      SectsLen(y, s.ch);
    }
    Distribute(s.st.ci, Bcs(y));
  }

  /** Cutting a file whose buffer is clean. */
  lemma CutFile(y: Layout, s: Snap, g: Fat)
    requires Ok(y, s) && !s.st.cache.dirty && Kept(s) <= |s.ch|
    requires |g| == |s.f| && IsFile(g, s.ch[..Kept(s)])
    ensures var t := Snap(s.d, g, s.ch[..Kept(s)], CutFields(s.st));
            Ok(y, t) && BytesOf(y, t) == BytesOf(y, s)[..s.st.fptr]
  {
    var k, q, p := Kept(s), Sects(y, s.ch), s.st.fptr;
    SectsPrefix(y, s.ch, k);
    var n := k * y.csize;
    BcsIndex(y, k);
    assert p <= n * SS by {
      Distribute(s.st.ci, Bcs(y));
    }
    CutKeepsBytes(s.d, q, s.st.cache, s.st.objsize, n, p);
    assert CacheOk(s.d, q[..n], s.st.cache, p);
  }

  lemma SameStands(y: Layout, s: Snap, t: Snap)
    requires Ok(y, s) && SameFile(y, s, t) && t.st.fptr == s.st.fptr && t.st.clust == s.st.clust && t.st.ci == s.st.ci
    requires t.st.cache.sect == s.st.cache.sect
    ensures Ok(y, t) && Kept(t) == Kept(s)
  {
  }

  /** Cutting the chain first and writing a dirty buffer back afterwards comes to the same. */
  lemma CutThenFlush(y: Layout, s: Snap, d: Disk, g: Fat)
    requires Ok(y, s) && s.st.fptr < s.st.objsize && Sectored(d) && SameButFat(s.d, d, y)
    requires Kept(s) <= |s.ch| && |g| == |s.f| && IsFile(g, s.ch[..Kept(s)])
    ensures TruncateDone(y, s, Flushed(Snap(d, g, s.ch[..Kept(s)], CutFields(s.st))))
  {
    var u := s.(d := d);
    OffFatSame(y, s, d);
    FlushedSame(y, u);
    var v := Flushed(u);
    SameTwice(y, s, u, v);
    SameStands(y, s, v);
    CutFile(y, v, g);
    assert Flushed(Snap(d, g, s.ch[..Kept(s)], CutFields(s.st))) == Snap(v.d, g, v.ch[..Kept(v)], CutFields(v.st));
  }

  lemma NotCut(y: Layout, s: Snap)
    requires Ok(y, s) && s.st.fptr >= s.st.objsize
    ensures TruncateDone(y, s, s)
  {
    var b := BytesOf(y, s);
    assert b[..s.st.fptr] == b;
    if s.st.fptr > 0 {
      assert s.st.ci < |s.ch|;
    }
  }

  /** Cutting a file's chain keeps the volume's table in order. */
  lemma CutAlloc(f: Fat, chains: seq<seq<nat>>, me: nat, k: nat, free: nat, after: nat, dirs: set<nat>, eoc: nat)
    requires me < |chains| && k < |chains[me]| && IsChain(f, chains[me]) && eoc >= |f| && eoc > 1
    requires AllocOk(f, chains, free, dirs) && NotDirs(chains[me], dirs)
    requires CountsFree(after, Cut(f, chains[me], k, eoc))
    ensures IsFile(Cut(f, chains[me], k, eoc), chains[me][..k]) && NotDirs(chains[me][..k], dirs)
    ensures AllocOk(Cut(f, chains[me], k, eoc), chains[me := chains[me][..k]], after, dirs)
  {
    var ch := chains[me];
    var g := Cut(f, ch, k, eoc);
    CutKeeps(f, chains, me, k, eoc);
    CutIsChain(f, ch, k, eoc);
    hide WellFormed, IsChain;
    forall c | c in dirs && c < |g|
      ensures g[c] != 0
    {
      assert f[c] != 0 && c !in ch;
    }
  }

  /** What the removal of the clusters behind the file pointer does to the table. */
  lemma CutsTable(y: Layout, s: Snap, chains: seq<seq<nat>>, me: nat, free: nat, after: nat, dirs: set<nat>, eoc: nat)
    requires Ok(y, s) && s.st.fptr < s.st.objsize && eoc >= |s.f| && eoc > 1
    requires me < |chains| && chains[me] == s.ch && AllocOk(s.f, chains, free, dirs) && NotDirs(s.ch, dirs)
    requires CountsFree(after, CutTable(s, eoc))
    ensures Kept(s) <= |s.ch|
    ensures IsFile(CutTable(s, eoc), s.ch[..Kept(s)]) && |CutTable(s, eoc)| == |s.f|
    ensures AllocOk(CutTable(s, eoc), chains[me := s.ch[..Kept(s)]], after, dirs) && NotDirs(s.ch[..Kept(s)], dirs)
  {
    KeptFits(y, s);
    var k := Kept(s);
    if k < |s.ch| {
      CutAlloc(s.f, chains, me, k, free, after, dirs, eoc);
    } else {
      assert s.ch[..k] == s.ch && chains[me := s.ch] == chains;
    }
  }

  /** The table and its removal, in the two cases in which something is removed. */
  lemma CutIsRemoval(y: Layout, s: Snap, chains: seq<seq<nat>>, me: nat, eoc: nat)
    requires Ok(y, s) && s.st.fptr < s.st.objsize && Kept(s) < |s.ch| && eoc >= |s.f|
    requires me < |chains| && chains[me] == s.ch && WellFormed(s.f, chains)
    ensures IsChain(s.f, s.ch) && 2 <= s.ch[Kept(s)] < |s.f|
    ensures s.st.fptr == 0 ==> Removed(s.f, s.ch[0]) == Removal(CutTable(s, eoc), true)
    ensures s.st.fptr > 0 ==> 2 <= s.st.clust < |s.f| && s.f[s.st.clust] != 0
                              && Removed(s.f[s.st.clust := eoc], s.ch[Kept(s)]) == Removal(CutTable(s, eoc), true)
  {
    KeptFits(y, s);
    RemovalKeeps(s.f, chains, me, Kept(s), eoc);
  }
}
