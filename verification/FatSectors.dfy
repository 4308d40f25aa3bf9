/** Which disk sectors hold the data of a cluster chain. */
module FatSectors {
  import opened Words
  import opened FatEntry
  import opened FatVolume
  import opened FatTable

  ghost function RunSector(y: Layout, c: nat, o: nat): nat {
    y.ClusterSector(c) + o
  }

  /** The sectors of one cluster. */
  ghost function ClusterRun(y: Layout, c: nat): (r: seq<nat>)
    ensures |r| == y.csize
  {
    seq(y.csize, o requires 0 <= o < y.csize => RunSector(y, c, o))
  }

  ghost predicate AllClusters(ch: seq<nat>) {
    forall i :: 0 <= i < |ch| ==> 2 <= ch[i]
  }

  /** The sectors of a chain, in file order. */
  ghost function Sects(y: Layout, ch: seq<nat>): seq<nat> {
    if ch == [] then []
    else Sects(y, ch[..|ch| - 1]) + ClusterRun(y, ch[|ch| - 1])
  }

  lemma {:induction false} SectsLen(y: Layout, ch: seq<nat>)
    ensures |Sects(y, ch)| == |ch| * y.csize
  {
    if ch != [] {
      SectsLen(y, ch[..|ch| - 1]);
      Distribute(|ch| - 1, y.csize);
    }
  }

  lemma Distribute(i: int, n: int)
    ensures (i + 1) * n == i * n + n
  {
  }

  lemma Monotone(i: nat, j: nat, n: nat)
    requires i <= j
    ensures i * n <= j * n
  {
  }

  /** Sector `o` of the `i`-th cluster of a chain. */
  lemma {:induction false} SectsAt(y: Layout, ch: seq<nat>, i: nat, o: nat)
    requires i < |ch| && o < y.csize
    ensures i * y.csize + o < |Sects(y, ch)|
    ensures Sects(y, ch)[i * y.csize + o] == y.ClusterSector(ch[i]) + o
    decreases |ch|
  {
    var m := |ch| - 1;
    SectsLen(y, ch[..m]);
    if i < m {
      SectsAt(y, ch[..m], i, o);
    }
  }

  /** Every sector of a chain lies in one of its clusters. */
  lemma {:induction false} SectsOwner(y: Layout, ch: seq<nat>, k: nat) returns (i: nat, o: nat)
    requires k < |Sects(y, ch)|
    ensures i < |ch| && o < y.csize && k == i * y.csize + o
    ensures Sects(y, ch)[k] == y.ClusterSector(ch[i]) + o
    decreases |ch|
  {
    var m := |ch| - 1;
    SectsLen(y, ch[..m]);
    if k < |Sects(y, ch[..m])| {
      i, o := SectsOwner(y, ch[..m], k);
    } else {
      i, o := m, k - m * y.csize;
    }
  }

  /** Sectors of different clusters are different. */
  lemma ClustersApart(y: Layout, c: nat, o: nat, d: nat, p: nat)
    requires 2 <= c && 2 <= d && c != d && o < y.csize && p < y.csize
    ensures y.ClusterSector(c) + o != y.ClusterSector(d) + p
  {
    if c < d {
      Monotone(c - 2 + 1, d - 2, y.csize);
      Distribute(c - 2, y.csize);
    } else {
      Monotone(d - 2 + 1, c - 2, y.csize);
      Distribute(d - 2, y.csize);
    }
  }

  /** No sector occurs twice in a file. */
  lemma SectsDistinct(y: Layout, f: Fat, ch: seq<nat>, k: nat, l: nat)
    requires IsFile(f, ch) && k < |Sects(y, ch)| && l < |Sects(y, ch)| && k != l
    ensures Sects(y, ch)[k] != Sects(y, ch)[l]
  {
    var i, o := SectsOwner(y, ch, k);
    var j, p := SectsOwner(y, ch, l);
    if i != j {
      NoRepeat(f, ch, if i < j then i else j, if i < j then j else i);
      ClustersApart(y, ch[i], o, ch[j], p);
    }
  }

  /** All sectors of a cluster lie in the data area of the disk. */
  lemma ClusterInData(y: Layout, sectors: nat, c: nat, o: nat)
    requires 2 <= c < y.nFatent && y.DataFits(sectors) && o < y.csize
    ensures y.database <= y.ClusterSector(c) + o < sectors
  {
    Monotone(c - 2 + 1, y.nFatent - 2, y.csize);
    Distribute(c - 2, y.csize);
  }

  /** The sectors of the first `i` clusters come first. */
  lemma {:induction false} SectsPrefix(y: Layout, ch: seq<nat>, i: nat)
    requires i <= |ch|
    ensures i * y.csize <= |Sects(y, ch)|
    ensures Sects(y, ch[..i]) == Sects(y, ch)[..i * y.csize]
    decreases |ch|
  {
    SectsLen(y, ch);
    if i == |ch| {
      assert ch[..i] == ch;
    } else {
      var m := |ch| - 1;
      SectsPrefix(y, ch[..m], i);
      assert ch[..m][..i] == ch[..i];
    }
  }

  lemma SectsAppend(y: Layout, ch: seq<nat>, c: nat)
    ensures Sects(y, ch + [c]) == Sects(y, ch) + ClusterRun(y, c)
  {
    assert (ch + [c])[..|ch|] == ch;
  }

  /** Disjoint chains share no sector. */
  lemma DisjointFiles(y: Layout, ch: seq<nat>, other: seq<nat>, k: nat)
    requires AllClusters(ch) && AllClusters(other) && Disjoint(ch, other) && k < |Sects(y, other)|
    ensures Sects(y, other)[k] !in Sects(y, ch)
  {
    var j, p := SectsOwner(y, other, k);
    forall l | 0 <= l < |Sects(y, ch)|
      ensures Sects(y, ch)[l] != Sects(y, other)[k]
    {
      var i, o := SectsOwner(y, ch, l);
      assert ch[i] in ch && other[j] in other;
      ClustersApart(y, ch[i], o, other[j], p);
    }
  }

  /** Apart from the tables, the two disks differ at most in the sectors of chain `ch`. */
  ghost predicate OnlyChain(d: Disk, e: Disk, y: Layout, ch: seq<nat>) {
    |d| == |e|
    && forall s :: 0 <= s < |d| && !y.InTable(s) && !y.InMirror(s) && s !in Sects(y, ch) ==> e[s] == d[s]
  }

  /** The window shows no sector of a cluster that holds no directory. */
  lemma ClusterNotInWindow(y: Layout, sect: nat, clust: nat, dirs: set<nat>, c: nat, o: nat)
    requires WindowPlaced(y, sect, clust, dirs) && 2 <= c && c !in dirs && o < y.csize
    ensures sect < y.database || sect != y.ClusterSector(c) + o
  {
    if sect >= y.database {
      ClustersApart(y, c, o, clust, sect - y.ClusterSector(clust));
    }
  }
}
