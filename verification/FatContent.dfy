/** The bytes of an open file: its sectors on the disk, except the one sector whose current
    contents wait in the file's private buffer. */
module FatContent {
  import opened Words
  import opened FatEntry
  import opened FatVolume

  type Bytes = seq<Byte>

  ghost predicate Distinct(s: seq<nat>) {
    forall k, l :: 0 <= k < |s| && 0 <= l < |s| && k != l ==> s[k] != s[l]
  }

  ghost predicate OnDisk(d: Disk, s: seq<nat>) {
    Sectored(d) && forall k :: 0 <= k < |s| ==> s[k] < |d|
  }

  /** The private buffer of a file: the sector it shows and whether it is newer than the disk. */
  datatype Cache = Cache(dirty: bool, sect: nat, buf: Bytes)

  /** The contents of the `k`-th sector of the file. */
  ghost function SectorData(d: Disk, s: seq<nat>, c: Cache, k: nat): (b: Bytes)
    requires OnDisk(d, s) && |c.buf| == SS && k < |s|
    ensures |b| == SS
  {
    if c.dirty && s[k] == c.sect then c.buf else d[s[k]]
  }

  /** The first `size` bytes of the file. */
  ghost function Content(d: Disk, s: seq<nat>, c: Cache, size: nat): (b: Bytes)
    requires OnDisk(d, s) && |c.buf| == SS && size <= |s| * SS
    ensures |b| == size
  {
    seq(size, i requires 0 <= i < size => SectorData(d, s, c, i / SS)[i % SS])
  }

  /** What an open file keeps true of its buffer: a dirty buffer belongs to a sector in use, and a
      clean one agrees with the disk if it shows a sector in use. */
  ghost predicate CacheOk(d: Disk, s: seq<nat>, c: Cache, size: nat) {
    && |c.buf| == SS
    && OnDisk(d, s)
    && (c.dirty ==> exists k :: 0 <= k < |s| && k * SS < size && s[k] == c.sect)
    && (!c.dirty ==> forall k :: 0 <= k < |s| && k * SS < size && s[k] == c.sect ==> c.buf == d[s[k]])
  }

  /** `c` with the bytes from `pos` on overwritten by, or extended with, `w`. */
  function Overwrite(c: Bytes, pos: nat, w: Bytes): (r: Bytes)
    requires pos <= |c|
    ensures |r| == if pos + |w| > |c| then pos + |w| else |c|
    ensures forall i :: 0 <= i < |r| ==> r[i] == if pos <= i < pos + |w| then w[i - pos] else c[i]
  {
    c[..pos] + w + if pos + |w| < |c| then c[pos + |w|..] else []
  }

  lemma OverwriteTwice(c: Bytes, pos: nat, w: Bytes, n: nat)
    requires pos <= |c| && n <= |w|
    ensures Overwrite(Overwrite(c, pos, w[..n]), pos + n, w[n..]) == Overwrite(c, pos, w)
  {
  }

  /** Files with equal sectors hold equal bytes. */
  lemma SameData(d: Disk, s: seq<nat>, c: Cache, e: Disk, t: seq<nat>, x: Cache, size: nat)
    requires OnDisk(d, s) && OnDisk(e, t) && |c.buf| == SS && |x.buf| == SS
    requires size <= |s| * SS && size <= |t| * SS
    requires forall k :: 0 <= k < |s| && k * SS < size ==> k < |t| && SectorData(d, s, c, k) == SectorData(e, t, x, k)
    ensures Content(d, s, c, size) == Content(e, t, x, size)
  {
    forall i | 0 <= i < size
      ensures Content(d, s, c, size)[i] == Content(e, t, x, size)[i]
    {
      var k := i / SS;
      assert k * SS <= i < size && k < |s|;
    }
  }

  /** Writing a dirty buffer back changes no byte of the file. */
  lemma FlushKeeps(d: Disk, s: seq<nat>, c: Cache, size: nat)
    requires CacheOk(d, s, c, size) && c.dirty && Distinct(s) && size <= |s| * SS
    ensures c.sect < |d|
    ensures var e, x := d[c.sect := c.buf], c.(dirty := false);
            CacheOk(e, s, x, size) && Content(e, s, x, size) == Content(d, s, c, size)
  {
    var k :| 0 <= k < |s| && k * SS < size && s[k] == c.sect;
    var e, x := d[c.sect := c.buf], c.(dirty := false);
    assert OnDisk(e, s);
    SameData(d, s, c, e, s, x, size);
  }

  /** Loading another sector into a clean buffer changes no byte of the file. */
  lemma LoadKeeps(d: Disk, s: seq<nat>, c: Cache, size: nat, sect: nat)
    requires CacheOk(d, s, c, size) && !c.dirty && size <= |s| * SS && sect < |d|
    ensures var x := Cache(false, sect, d[sect]);
            CacheOk(d, s, x, size) && Content(d, s, x, size) == Content(d, s, c, size)
  {
    SameData(d, s, c, d, s, Cache(false, sect, d[sect]), size);
  }

  /** More sectors behind the end of the file do not change it. */
  lemma AppendKeeps(d: Disk, s: seq<nat>, c: Cache, size: nat, more: seq<nat>)
    requires CacheOk(d, s, c, size) && size <= |s| * SS && OnDisk(d, s + more)
    ensures CacheOk(d, s + more, c, size)
    ensures Content(d, s + more, c, size) == Content(d, s, c, size)
  {
    var t := s + more;
    forall k | 0 <= k < |t| && k * SS < size
      ensures k < |s| && t[k] == s[k]
    {
    }
    if c.dirty {
      var k :| 0 <= k < |s| && k * SS < size && s[k] == c.sect;
      assert t[k] == c.sect;
    }
    SameData(d, s, c, d, t, c, size);
  }

  /** Where the buffer shows sector `k` of the file, its bytes are the file's bytes. */
  lemma BufferShows(d: Disk, s: seq<nat>, c: Cache, size: nat, pos: nat, n: nat)
    requires CacheOk(d, s, c, size) && size <= |s| * SS
    requires pos + n <= size && 0 < n && pos % SS + n <= SS && s[pos / SS] == c.sect
    ensures Content(d, s, c, size)[pos..pos + n] == c.buf[pos % SS..pos % SS + n]
  {
    var k := pos / SS;
    var a, b := Content(d, s, c, size)[pos..pos + n], c.buf[pos % SS..pos % SS + n];
    forall i | 0 <= i < n
      ensures a[i] == b[i]
    {
      assert (pos + i) / SS == k && (pos + i) % SS == pos % SS + i;
      assert SectorData(d, s, c, k) == c.buf;
    }
  }

  /** Changing bytes of the buffer that shows sector `k` changes exactly these bytes of the file. */
  lemma PatchWrites(d: Disk, s: seq<nat>, c: Cache, size: nat, pos: nat, w: Bytes)
    requires CacheOk(d, s, c, size) && size <= |s| * SS && Distinct(s)
    requires pos <= size && 0 < |w| && pos % SS + |w| <= SS
    requires pos / SS < |s| && s[pos / SS] == c.sect
    ensures var x := Cache(true, c.sect, Overwrite(c.buf, pos % SS, w));
            var z := if pos + |w| > size then pos + |w| else size;
            z <= |s| * SS && CacheOk(d, s, x, z)
            && Content(d, s, x, z) == Overwrite(Content(d, s, c, size), pos, w)
  {
    var k := pos / SS;
    var x := Cache(true, c.sect, Overwrite(c.buf, pos % SS, w));
    var z := if pos + |w| > size then pos + |w| else size;
    assert k * SS <= pos < z;
    forall i | 0 <= i < z
      ensures Content(d, s, x, z)[i] == Overwrite(Content(d, s, c, size), pos, w)[i]
    {
      PatchByte(d, s, c, size, pos, w, i);
    }
  }

  lemma PatchByte(d: Disk, s: seq<nat>, c: Cache, size: nat, pos: nat, w: Bytes, i: nat)
    requires CacheOk(d, s, c, size) && size <= |s| * SS && Distinct(s)
    requires pos <= size && 0 < |w| && pos % SS + |w| <= SS
    requires pos / SS < |s| && s[pos / SS] == c.sect
    requires i / SS < |s| && (i < size || pos <= i < pos + |w|)
    ensures var x := Cache(true, c.sect, Overwrite(c.buf, pos % SS, w));
            SectorData(d, s, x, i / SS)[i % SS] ==
            if pos <= i < pos + |w| then w[i - pos] else Content(d, s, c, size)[i]
  {
    var k := pos / SS;
    if i / SS == k {
      assert i - pos == i % SS - pos % SS;
      assert i < pos ==> k * SS < size;
    } else {
      assert s[i / SS] != s[k];
      assert !(pos <= i < pos + |w|);
    }
  }

  // ---------- transfers that bypass the buffer ----------

  /** The `cc` sectors from `sect` on, one after the other. */
  function ReadRun(d: Disk, sect: nat, cc: nat): (b: Bytes)
    requires Sectored(d) && sect + cc <= |d|
    ensures |b| == cc * SS
  {
    seq(cc * SS, i requires 0 <= i < cc * SS => d[sect + i / SS][i % SS])
  }

  lemma ReadRunLocal(d: Disk, e: Disk, sect: nat, cc: nat)
    requires Sectored(d) && Sectored(e) && |d| == |e| && sect + cc <= |d|
    requires forall s :: sect <= s < sect + cc ==> e[s] == d[s]
    ensures ReadRun(e, sect, cc) == ReadRun(d, sect, cc)
  {
    forall i | 0 <= i < cc * SS
      ensures ReadRun(e, sect, cc)[i] == ReadRun(d, sect, cc)[i]
    {
      assert sect <= sect + i / SS < sect + cc;
    }
  }

  /** The `j`-th sector's worth of `w`. */
  function Chunk(w: Bytes, j: nat): (b: Bytes)
    requires j * SS + SS <= |w|
    ensures |b| == SS
  {
    w[j * SS..j * SS + SS]
  }

  function SectorAfter(d: Disk, sect: nat, cc: nat, w: Bytes, i: nat): (b: Bytes)
    requires Sectored(d) && |w| == cc * SS && i < |d|
    ensures |b| == SS
  {
    if sect <= i < sect + cc then Chunk(w, i - sect) else d[i]
  }

  /** The disk after `cc` sectors from `sect` on were replaced by `w`. */
  function WriteRun(d: Disk, sect: nat, cc: nat, w: Bytes): (e: Disk)
    requires Sectored(d) && |w| == cc * SS
    ensures |e| == |d| && Sectored(e)
    ensures forall i :: 0 <= i < |d| ==> e[i] == SectorAfter(d, sect, cc, w, i)
  {
    seq(|d|, i requires 0 <= i < |d| => SectorAfter(d, sect, cc, w, i))
  }

  /** Sectors `k` to `k + cc` of the file lie next to each other on the disk. */
  ghost predicate Adjacent(s: seq<nat>, k: nat, cc: nat) {
    k + cc <= |s| && 0 < cc && forall i :: k <= i < k + cc ==> s[i] == s[k] + (i - k)
  }

  lemma RunIndex(s: seq<nat>, k: nat, cc: nat, i: nat)
    requires Adjacent(s, k, cc) && Distinct(s) && i < |s|
    ensures k <= i < k + cc ==> s[i] == s[k] + (i - k)
    ensures s[k] <= s[i] < s[k] + cc <==> k <= i < k + cc
  {
    if s[k] <= s[i] {
      var j := k + (s[i] - s[k]);
      assert k <= j < k + cc ==> s[j] == s[i];
    }
  }

  /** What a direct read hands out after it has put a dirty buffered sector in its place. */
  function Patched(r: Bytes, sect: nat, cc: nat, c: Cache): (b: Bytes)
    requires |r| == cc * SS && |c.buf| == SS
    ensures |b| == |r|
  {
    if c.dirty && sect <= c.sect < sect + cc then Overwrite(r, (c.sect - sect) * SS, c.buf) else r
  }

  /** A direct read of whole sectors hands out the file's bytes. */
  lemma DirectReads(d: Disk, s: seq<nat>, c: Cache, size: nat, k: nat, cc: nat)
    requires CacheOk(d, s, c, size) && size <= |s| * SS && Distinct(s) && Adjacent(s, k, cc)
    requires (k + cc) * SS <= size
    ensures s[k] + cc <= |d|
    ensures Patched(ReadRun(d, s[k], cc), s[k], cc, c) == Content(d, s, c, size)[k * SS..(k + cc) * SS]
  {
    assert s[k + cc - 1] == s[k] + (cc - 1);
    var a, b := Patched(ReadRun(d, s[k], cc), s[k], cc, c), Content(d, s, c, size)[k * SS..(k + cc) * SS];
    forall i | 0 <= i < cc * SS
      ensures a[i] == b[i]
    {
      DirectReadByte(d, s, c, size, k, cc, i);
    }
  }

  lemma DirectReadByte(d: Disk, s: seq<nat>, c: Cache, size: nat, k: nat, cc: nat, i: nat)
    requires CacheOk(d, s, c, size) && size <= |s| * SS && Distinct(s) && Adjacent(s, k, cc)
    requires (k + cc) * SS <= size && i < cc * SS && s[k] + cc <= |d|
    ensures Patched(ReadRun(d, s[k], cc), s[k], cc, c)[i] == Content(d, s, c, size)[k * SS + i]
  {
    var j := i / SS;
    assert i == j * SS + i % SS;
    assert (k * SS + i) / SS == k + j && (k * SS + i) % SS == i % SS;
    assert s[k + j] == s[k] + j;
  }

  /** The buffer after a direct write: refilled if the write went past it. */
  ghost function Refilled(c: Cache, sect: nat, cc: nat, w: Bytes): Cache
    requires |w| == cc * SS
  {
    if sect <= c.sect < sect + cc then Cache(false, c.sect, Chunk(w, c.sect - sect)) else c
  }

  /** A direct write of whole sectors overwrites or extends exactly these bytes of the file. */
  lemma DirectWrites(d: Disk, s: seq<nat>, c: Cache, size: nat, k: nat, cc: nat, w: Bytes)
    requires CacheOk(d, s, c, size) && !c.dirty && size <= |s| * SS && Distinct(s) && Adjacent(s, k, cc)
    requires k * SS <= size && |w| == cc * SS && s[k] + cc <= |d|
    ensures var e, x := WriteRun(d, s[k], cc, w), Refilled(c, s[k], cc, w);
            var z := if k * SS + |w| > size then k * SS + |w| else size;
            z <= |s| * SS && CacheOk(e, s, x, z)
            && Content(e, s, x, z) == Overwrite(Content(d, s, c, size), k * SS, w)
  {
    var e, x := WriteRun(d, s[k], cc, w), Refilled(c, s[k], cc, w);
    var z := if k * SS + |w| > size then k * SS + |w| else size;
    forall i | 0 <= i < |s| && i * SS < z && s[i] == x.sect
      ensures x.buf == e[s[i]]
    {
      RunIndex(s, k, cc, i);
    }
    forall i | 0 <= i < z
      ensures Content(e, s, x, z)[i] == Overwrite(Content(d, s, c, size), k * SS, w)[i]
    {
      DirectWriteByte(d, s, c, size, k, cc, w, i);
    }
  }

  lemma DirectWriteByte(d: Disk, s: seq<nat>, c: Cache, size: nat, k: nat, cc: nat, w: Bytes, i: nat)
    requires CacheOk(d, s, c, size) && !c.dirty && size <= |s| * SS && Distinct(s) && Adjacent(s, k, cc)
    requires k * SS <= size && |w| == cc * SS && s[k] + cc <= |d|
    requires i / SS < |s| && (i < size || k * SS <= i < k * SS + |w|)
    ensures WriteRun(d, s[k], cc, w)[s[i / SS]][i % SS] ==
            if k * SS <= i < k * SS + |w| then w[i - k * SS] else Content(d, s, c, size)[i]
  {
    RunIndex(s, k, cc, i / SS);
    assert i == i / SS * SS + i % SS;
    if k <= i / SS < k + cc {
      assert i - k * SS == (i / SS - k) * SS + i % SS;
    }
  }

  /** A file cut at `pos`, its buffer clean or showing a sector that is still in use. */
  lemma CutKeepsBytes(d: Disk, s: seq<nat>, c: Cache, size: nat, n: nat, pos: nat)
    requires CacheOk(d, s, c, size) && size <= |s| * SS && pos <= size && n <= |s| && pos <= n * SS
    ensures OnDisk(d, s[..n])
    ensures Content(d, s[..n], c, pos) == Content(d, s, c, size)[..pos]
  {
    forall i | 0 <= i < pos
      ensures Content(d, s[..n], c, pos)[i] == Content(d, s, c, size)[i]
    {
      assert i / SS < n;
    }
  }
}
