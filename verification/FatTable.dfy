/** Cluster chains: what the entries of a file allocation table mean. */
module FatTable {

  type Fat = seq<nat>

  /** `ch` is a whole chain from its first cluster to the end mark. */
  ghost predicate IsChain(f: Fat, ch: seq<nat>) {
    && 0 < |ch|
    && (forall i :: 0 <= i < |ch| ==> 2 <= ch[i] < |f|)
    && (forall i :: 0 <= i < |ch| - 1 ==> f[ch[i]] == ch[i + 1])
    && f[ch[|ch| - 1]] >= |f|
  }

  ghost predicate Disjoint(a: seq<nat>, b: seq<nat>) {
    forall x :: x in a ==> x !in b
  }

  /** The clusters of a file: a chain, or none at all. */
  ghost predicate IsFile(f: Fat, ch: seq<nat>) {
    ch == [] || IsChain(f, ch)
  }

  /** The table is exactly a set of pairwise disjoint chains. */
  ghost predicate WellFormed(f: Fat, chains: seq<seq<nat>>) {
    && (forall k :: 0 <= k < |chains| ==> IsFile(f, chains[k]))
    && (forall j, k :: 0 <= j < |chains| && 0 <= k < |chains| && j != k ==> Disjoint(chains[j], chains[k]))
    && (forall c :: 2 <= c < |f| && f[c] != 0 ==> InSome(chains, c))
  }

  ghost predicate InSome(chains: seq<seq<nat>>, c: nat) {
    exists k :: 0 <= k < |chains| && c in chains[k]
  }

  /** Number of free clusters below `n`. */
  ghost function FreeBelow(f: Fat, n: nat): nat
    requires n <= |f|
  {
    if n <= 2 then 0
    else FreeBelow(f, n - 1) + if f[n - 1] == 0 then 1 else 0
  }

  lemma {:induction false} FreeBelowZero(f: Fat, n: nat)
    requires n <= |f|
    ensures FreeBelow(f, n) <= if n <= 2 then 0 else n - 2
    ensures FreeBelow(f, n) == 0 <==> forall c :: 2 <= c < n ==> f[c] != 0
  {
    if n > 2 {
      FreeBelowZero(f, n - 1);
    }
  }

  ghost function FreeCount(f: Fat): nat {
    FreeBelow(f, |f|)
  }

  lemma {:induction false} FreeBelowSet(f: Fat, c: nat, v: nat, n: nat)
    requires 2 <= c < |f| && n <= |f|
    ensures FreeBelow(f[c := v], n) ==
            FreeBelow(f, n) + (if c < n then (if v == 0 then 1 else 0) - (if f[c] == 0 then 1 else 0) else 0)
  {
    if n > 2 {
      FreeBelowSet(f, c, v, n - 1);
    }
  }

  /** Setting one entry moves the free count by what that entry changed. */
  lemma FreeCountSet(f: Fat, c: nat, v: nat)
    requires 2 <= c < |f|
    ensures FreeCount(f[c := v]) == FreeCount(f) + (if v == 0 then 1 else 0) - (if f[c] == 0 then 1 else 0)
    ensures FreeCount(f[c := v]) <= |f| - 2
  {
    FreeBelowZero(f[c := v], |f|);
    FreeBelowSet(f, c, v, |f|);
  }

  /** `k` is the exact number of free clusters or says that the number is unknown. */
  ghost predicate CountsFree(k: nat, f: Fat) {
    k + 2 > |f| || k == FreeCount(f)
  }

  /** The count kept in step with freeing a used cluster. */
  lemma CountAfterFree(k: nat, f: Fat, c: nat)
    requires 2 <= c < |f| && f[c] != 0 && CountsFree(k, f)
    ensures CountsFree(if k < |f| - 2 then k + 1 else k, f[c := 0])
  {
    FreeCountSet(f, c, 0);
  }

  /** The count kept in step with taking a free cluster. */
  lemma CountAfterTake(k: nat, f: Fat, c: nat, v: nat)
    requires 2 <= c < |f| && f[c] == 0 && v != 0 && CountsFree(k, f)
    ensures CountsFree(if 0 < k <= |f| - 2 then k - 1 else k, f[c := v])
  {
    FreeBelowZero(f, |f|);
    FreeCountSet(f, c, v);
  }

  /** Relinking a used cluster does not change the count. */
  lemma CountAfterLink(k: nat, f: Fat, c: nat, v: nat)
    requires 2 <= c < |f| && f[c] != 0 && v != 0 && CountsFree(k, f)
    ensures CountsFree(k, f[c := v])
  {
    FreeCountSet(f, c, v);
  }

  // ---------- chains have no repetition ----------

  lemma {:induction false} SameTail(f: Fat, ch: seq<nat>, i: nat, j: nat, k: nat)
    requires IsChain(f, ch) && i < j && j + k < |ch| && ch[i] == ch[j]
    ensures ch[i + k] == ch[j + k]
    decreases k
  {
    if k > 0 {
      SameTail(f, ch, i, j, k - 1);
      assert f[ch[i + k - 1]] == ch[i + k] && f[ch[j + k - 1]] == ch[j + k];
    }
  }

  lemma NoRepeat(f: Fat, ch: seq<nat>, i: nat, j: nat)
    requires IsChain(f, ch) && i < j < |ch|
    ensures ch[i] != ch[j]
  {
    var k := |ch| - 1 - j;
    if ch[i] == ch[j] {
      SameTail(f, ch, i, j, k);
    }
    assert f[ch[i + k]] == ch[i + k + 1];
  }

  /** No cluster occurs twice in a chain: chains are acyclic. */
  lemma ChainAcyclic(f: Fat, ch: seq<nat>)
    requires IsChain(f, ch)
    ensures forall i, j :: 0 <= i < j < |ch| ==> ch[i] != ch[j]
  {
    forall i, j | 0 <= i < j < |ch|
      ensures ch[i] != ch[j]
    {
      NoRepeat(f, ch, i, j);
    }
  }

  /** Two chains with the same first cluster are the same chain. */
  lemma SuffixIsChain(f: Fat, ch: seq<nat>, i: nat)
    requires IsChain(f, ch) && i < |ch|
    ensures IsChain(f, ch[i..])
  {
    var t := ch[i..];
    forall k | 0 <= k < |t| - 1
      ensures f[t[k]] == t[k + 1]
    {
      assert f[ch[i + k]] == ch[i + k + 1];
    }
  }

  /** A chain survives changes to entries outside it. */
  lemma ChainFrame(f: Fat, g: Fat, ch: seq<nat>)
    requires IsChain(f, ch) && |f| == |g|
    requires forall i :: 0 <= i < |ch| ==> g[ch[i]] == f[ch[i]]
    ensures IsChain(g, ch)
  {
  }

  // ---------- what removing a chain does ----------

  ghost function Used(f: Fat, n: nat): nat
    requires n <= |f|
  {
    if n == 0 then 0 else Used(f, n - 1) + (if f[n - 1] != 0 then 1 else 0)
  }

  lemma {:induction false} UsedDrops(f: Fat, c: nat, n: nat)
    requires c < |f| && f[c] != 0 && n <= |f|
    ensures Used(f[c := 0], n) == Used(f, n) - if c < n then 1 else 0
  {
    if n > 0 {
      UsedDrops(f, c, n - 1);
    }
  }

  datatype Removal = Removal(fat: Fat, ok: bool)

  /** Freeing from cluster `c` on, on a table with any contents: every pass zeroes a non-zero
      entry, so this ends even when the entries form a cycle. */
  ghost function Removed(f: Fat, c: nat): (r: Removal)
    requires 2 <= c < |f|
    ensures |r.fat| == |f|
    decreases Used(f, |f|)
  {
    var nxt := f[c];
    if nxt == 0 then Removal(f, true)
    else if nxt == 1 then Removal(f, false)
    else
      UsedDrops(f, c, |f|);
      if nxt < |f| then Removed(f[c := 0], nxt) else Removal(f[c := 0], true)
  }

  /** The table with the entries of `cs` cleared. */
  ghost function Cleared(f: Fat, cs: seq<nat>): (g: Fat)
    ensures |g| == |f|
    ensures forall c :: 0 <= c < |f| ==> g[c] == if c in cs then 0 else f[c]
  {
    seq(|f|, c requires 0 <= c < |f| => if c in cs then 0 else f[c])
  }

  /** Removing a chain from its `i`-th cluster frees exactly the clusters from there to its end. */
  lemma {:induction false} RemovedSuffix(f: Fat, ch: seq<nat>)
    requires IsChain(f, ch)
    ensures Removed(f, ch[0]) == Removal(Cleared(f, ch), true)
    decreases |ch|
  {
    hide IsChain, Used;
    ChainStart(f, ch);
    ChainAcyclic(f, ch);
    var g := f[ch[0] := 0];
    UsedDrops(f, ch[0], |f|);
    if |ch| == 1 {
      ClearedOne(f, ch);
    } else {
      var t := ch[1..];
      SuffixIsChain(f, ch, 1);
      ChainFrame(f, g, t);
      RemovedSuffix(g, t);
      ClearedRest(f, ch);
    }
  }

  lemma ChainStart(f: Fat, ch: seq<nat>)
    requires IsChain(f, ch)
    ensures |ch| > 0 && 2 <= ch[0] < |f| && f[ch[0]] > 1
    ensures if |ch| == 1 then f[ch[0]] >= |f| else f[ch[0]] == ch[1] < |f|
  {
    if |ch| > 1 {
      assert ch[1] == f[ch[0]] && 2 <= ch[1];
    }
  }

  lemma ClearedOne(f: Fat, ch: seq<nat>)
    requires |ch| == 1 && ch[0] < |f|
    ensures Cleared(f, ch) == f[ch[0] := 0]
  {
  }

  lemma ClearedRest(f: Fat, ch: seq<nat>)
    requires ch != [] && ch[0] < |f|
    ensures Cleared(f[ch[0] := 0], ch[1..]) == Cleared(f, ch)
  {
    assert ch == [ch[0]] + ch[1..];
  }

  /** Whatever the table holds, a removal that succeeds leaves its first cluster free, and no
      entry that was free becomes used or changes its link. */
  /** The number found after following `n` entries from `c`; anything that is no cluster stays. */
  ghost function Walk(f: Fat, c: nat, n: nat): nat {
    if n == 0 then c else Follow(f, Walk(f, c, n - 1))
  }

  ghost function Follow(f: Fat, p: nat): nat {
    if 2 <= p < |f| then f[p] else p
  }

  ghost predicate Reaches(f: Fat, c: nat, d: nat) {
    exists n: nat :: Walk(f, c, n) == d
  }

  lemma {:induction false} WalkOn(f: Fat, c: nat, i: nat, n: nat)
    ensures Walk(f, c, i + n) == Walk(f, Walk(f, c, i), n)
    decreases n
  {
    if n > 0 {
      WalkOn(f, c, i, n - 1);
    }
  }

  /** A walk that has not come to the cleared entry `c` goes on as before. */
  lemma {:induction false} WalkSame(f: Fat, c: nat, x: nat, n: nat)
    requires 2 <= c < |f| && forall j: nat :: j < n ==> Walk(f, x, j) != c
    ensures Walk(f[c := 0], x, n) == Walk(f, x, n)
    decreases n
  {
    if n > 0 {
      WalkSame(f, c, x, n - 1);
    }
  }

  /** With entry `c` cleared, the clusters beyond `c` are still reached from the one it pointed to. */
  lemma {:induction false} WalkAround(f: Fat, c: nat, x: nat, n: nat, d: nat)
    requires 2 <= c < |f| && Walk(f, x, n) == d && d != c
    ensures Reaches(f[c := 0], x, d) || Reaches(f[c := 0], f[c], d)
    decreases n
  {
    if j: nat :| j < n && Walk(f, x, j) == c {
      WalkOn(f, x, j, 1);
      assert Walk(f, x, j + 1) == Follow(f, c) == f[c];
      WalkOn(f, x, j + 1, n - j - 1);
      WalkAround(f, c, f[c], n - j - 1, d);
    } else {
      WalkSame(f, c, x, n);
      assert Walk(f[c := 0], x, n) == d;
    }
  }

  /** A walk to a cluster with entry `c` cleared is one with entry `c` in place. */
  lemma {:induction false} WalkBack(f: Fat, c: nat, x: nat, n: nat)
    requires 2 <= c < |f| && Walk(f[c := 0], x, n) != 0
    ensures Walk(f, x, n) == Walk(f[c := 0], x, n)
    decreases n
  {
    if n > 0 {
      var g := f[c := 0];
      assert Walk(g, x, n) == Follow(g, Walk(g, x, n - 1));
      WalkBack(f, c, x, n - 1);
    }
  }

  /** Clearing the first entry takes the first cluster, and nothing else, off what is reached. */
  lemma ReachesRest(f: Fat, c: nat, d: nat)
    requires 2 <= c < |f| && 2 <= d < |f| && d != c
    ensures Reaches(f, c, d) <==> Reaches(f[c := 0], f[c], d)
  {
    var g := f[c := 0];
    assert Walk(f, c, 1) == Follow(f, Walk(f, c, 0)) == f[c];
    if Reaches(f, c, d) {
      var n: nat :| Walk(f, c, n) == d;
      assert n > 0;
      WalkOn(f, c, 1, n - 1);
      WalkAround(f, c, f[c], n - 1, d);
    }
    if Reaches(g, f[c], d) {
      var n: nat :| Walk(g, f[c], n) == d;
      WalkBack(f, c, f[c], n);
      WalkOn(f, c, 1, n);
      assert Walk(f, c, 1 + n) == d;
    }
  }

  /** A walk that starts outside the clusters goes nowhere. */
  lemma {:induction false} WalkStays(f: Fat, c: nat, n: nat)
    requires c < 2 || c >= |f|
    ensures Walk(f, c, n) == c
    decreases n
  {
    if n > 0 {
      WalkStays(f, c, n - 1);
    }
  }

  /** On a table with any contents, cyclic or not, a removal clears exactly the clusters reached from its
      argument, except one that holds the value 1, where it stops with an error. */
  lemma {:induction false} RemovedIsReached(f: Fat, c: nat, d: nat)
    requires 2 <= c < |f| && d < |f|
    ensures Removed(f, c).fat[d] == if 2 <= d && Reaches(f, c, d) && f[d] != 1 then 0 else f[d]
    decreases Used(f, |f|)
  {
    assert Walk(f, c, 0) == c;
    var g, nxt := f[c := 0], f[c];
    if d >= 2 && d != c {
      ReachesRest(f, c, d);
    }
    if nxt >= 2 {
      UsedDrops(f, c, |f|);
    }
    if 2 <= nxt < |f| {
      RemovedIsReached(g, nxt, d);
      assert Reaches(g, nxt, c) ==> g[c] != 1;
    } else if Reaches(g, nxt, d) {
      var n: nat :| Walk(g, nxt, n) == d;
      WalkStays(g, nxt, n);
    }
  }

  /** Such a removal fails exactly if a cluster that is reached holds the value 1. */
  lemma {:induction false} RemovedFails(f: Fat, c: nat)
    requires 2 <= c < |f|
    ensures !Removed(f, c).ok <==> exists d :: 2 <= d < |f| && Reaches(f, c, d) && f[d] == 1
    decreases Used(f, |f|)
  {
    assert Walk(f, c, 0) == c && Reaches(f, c, c);
    var g, nxt := f[c := 0], f[c];
    forall d | 2 <= d < |f| && d != c
      ensures Reaches(f, c, d) <==> Reaches(g, nxt, d)
    {
      ReachesRest(f, c, d);
    }
    if nxt >= 2 {
      UsedDrops(f, c, |f|);
    }
    if 2 <= nxt < |f| {
      RemovedFails(g, nxt);
      assert forall d :: 2 <= d < |f| && d != c ==> g[d] == f[d];
    } else {
      forall d | 2 <= d < |f| && Reaches(g, nxt, d)
        ensures false
      {
        var n: nat :| Walk(g, nxt, n) == d;
        WalkStays(g, nxt, n);
      }
    }
  }

  // ---------- both operations keep the table a set of chains ----------

  lemma ChainIsUsed(f: Fat, ch: seq<nat>, x: nat)
    requires IsFile(f, ch) && x in ch
    ensures 2 <= x < |f| && f[x] != 0
  {
    var i :| 0 <= i < |ch| && ch[i] == x;
    assert i < |ch| - 1 ==> f[ch[i]] == ch[i + 1];
  }

  /** Replacing the clusters of file `k` by others that were its own or free, on a table that
      changed only there, keeps the table well formed and every other file's chain. */
  lemma ReplaceKeeps(f: Fat, g: Fat, chains: seq<seq<nat>>, k: nat, ch: seq<nat>)
    requires WellFormed(f, chains) && k < |chains| && |g| == |f| && IsFile(g, ch)
    requires forall c :: 2 <= c < |f| && f[c] != 0 && c !in chains[k] ==> g[c] == f[c]
    requires forall x :: x in ch ==> x in chains[k] || (x < |f| && f[x] == 0)
    requires forall c :: 2 <= c < |g| && g[c] != 0 ==> c in ch || (f[c] != 0 && c !in chains[k])
    ensures WellFormed(g, chains[k := ch])
  {
    var after := chains[k := ch];
    forall j | 0 <= j < |chains| && j != k
      ensures IsFile(g, chains[j]) && Disjoint(chains[j], ch) && Disjoint(ch, chains[j])
    {
      assert Disjoint(chains[j], chains[k]);
      forall x | x in chains[j]
        ensures g[x] == f[x] && x !in ch && x < |f|
      {
        ChainIsUsed(f, chains[j], x);
      }
      if chains[j] != [] {
        ChainFrame(f, g, chains[j]);
      }
    }
    ReplaceCovers(f, g, chains, k, ch);
  }

  lemma ReplaceCovers(f: Fat, g: Fat, chains: seq<seq<nat>>, k: nat, ch: seq<nat>)
    requires WellFormed(f, chains) && k < |chains| && |g| == |f|
    requires forall c :: 2 <= c < |g| && g[c] != 0 ==> c in ch || (f[c] != 0 && c !in chains[k])
    ensures forall c :: 2 <= c < |g| && g[c] != 0 ==> InSome(chains[k := ch], c)
  {
    var after := chains[k := ch];
    forall c | 2 <= c < |g| && g[c] != 0
      ensures InSome(after, c)
    {
      if c in ch {
        assert c in after[k];
      } else {
        assert InSome(chains, c);
        var j :| 0 <= j < |chains| && c in chains[j];
        assert c in after[j];
      }
    }
  }

  /** The table after file `ch` gained the free cluster `n`. */
  ghost function Stretched(f: Fat, ch: seq<nat>, n: nat, eoc: nat): Fat
    requires IsFile(f, ch) && n < |f|
  {
    if ch == [] then f[n := eoc] else f[n := eoc][ch[|ch| - 1] := n]
  }

  lemma StretchedIsChain(f: Fat, ch: seq<nat>, n: nat, eoc: nat)
    requires IsFile(f, ch) && 2 <= n < |f| && f[n] == 0 && eoc >= |f|
    ensures IsChain(Stretched(f, ch, n, eoc), ch + [n])
  {
    if ch != [] {
      ChainAcyclic(f, ch);
      var g := Stretched(f, ch, n, eoc);
      assert n !in ch by {
        if n in ch {
          ChainIsUsed(f, ch, n);
        }
      }
      forall i | 0 <= i < |ch|
        ensures g[ch[i]] == (ch + [n])[i + 1]
      {
      }
    }
  }

  /** Stretching appends exactly one previously free cluster to file `k`, as its new end. */
  lemma StretchKeeps(f: Fat, chains: seq<seq<nat>>, k: nat, n: nat, eoc: nat)
    requires WellFormed(f, chains) && k < |chains|
    requires 2 <= n < |f| && f[n] == 0 && eoc >= |f|
    ensures WellFormed(Stretched(f, chains[k], n, eoc), chains[k := chains[k] + [n]])
  {
    StretchedIsChain(f, chains[k], n, eoc);
    ReplaceKeeps(f, Stretched(f, chains[k], n, eoc), chains, k, chains[k] + [n]);
  }

  /** The table after file `ch` was cut to its first `i` clusters. */
  ghost function Cut(f: Fat, ch: seq<nat>, i: nat, eoc: nat): Fat
    requires IsChain(f, ch) && i < |ch|
  {
    Cleared(if i == 0 then f else f[ch[i - 1] := eoc], ch[i..])
  }

  lemma CutIsChain(f: Fat, ch: seq<nat>, i: nat, eoc: nat)
    requires IsChain(f, ch) && i < |ch| && eoc >= |f|
    ensures IsFile(Cut(f, ch, i, eoc), ch[..i])
  {
    if i > 0 {
      ChainAcyclic(f, ch);
      var g := Cut(f, ch, i, eoc);
      forall j | 0 <= j < i
        ensures ch[j] !in ch[i..]
      {
      }
      forall j | 0 <= j < i - 1
        ensures g[ch[j]] == ch[j + 1]
      {
      }
    }
  }

  lemma CutEntries(f: Fat, ch: seq<nat>, i: nat, eoc: nat)
    requires IsChain(f, ch) && i < |ch|
    ensures forall c :: 0 <= c < |f| && c !in ch ==> Cut(f, ch, i, eoc)[c] == f[c]
    ensures forall c :: 0 <= c < |f| && c in ch && c !in ch[..i] ==> Cut(f, ch, i, eoc)[c] == 0
    ensures forall x :: x in ch[..i] ==> x in ch
  {
    assert ch == ch[..i] + ch[i..];
  }

  /** Cutting file `k` to its first `i` clusters: they end in an end mark and the rest is free. */
  lemma CutKeeps(f: Fat, chains: seq<seq<nat>>, k: nat, i: nat, eoc: nat)
    requires WellFormed(f, chains) && k < |chains| && i < |chains[k]| && eoc >= |f|
    ensures WellFormed(Cut(f, chains[k], i, eoc), chains[k := chains[k][..i]])
  {
    var ch := chains[k];
    CutIsChain(f, ch, i, eoc);
    CutEntries(f, ch, i, eoc);
    ReplaceKeeps(f, Cut(f, ch, i, eoc), chains, k, ch[..i]);
  }

  // ---------- allocating a cluster ----------

  ghost predicate NoneFree(f: Fat) {
    forall c :: 2 <= c < |f| ==> f[c] != 0
  }

  /** No entry holds the value 1, which never occurs in a sound table. */
  ghost predicate Sane(f: Fat) {
    forall c :: 2 <= c < |f| ==> f[c] != 1
  }

  /** What a scan finds that looks for a free cluster from behind `ncl` on, once around to `scl`: the
      cluster, 0 for none, 1 when it meets an entry that makes no sense. */
  ghost function Scan(f: Fat, scl: nat, ncl: nat): (r: nat)
    requires |f| > 2 && 1 <= scl < |f| && 1 <= ncl < |f|
    ensures r >= 2 ==> r < |f| && f[r] == 0
    decreases if ncl >= scl then 2 * |f| - ncl else scl - ncl
  {
    var n := if ncl + 1 < |f| then ncl + 1 else 2;
    if ncl + 1 >= |f| && 2 > scl then 0
    else if f[n] == 0 then n
    else if f[n] == 1 then 1
    else if n == scl then 0
    else Scan(f, scl, n)
  }

  /** The cluster that is handed out behind `clst`, or for a new chain when that is 0: the next one if it
      is free, else what a scan from `last`, the last one handed out, finds. */
  ghost function Picked(f: Fat, last: nat, clst: nat): (r: nat)
    requires |f| > 2 && (clst == 0 || 2 <= clst < |f|)
    ensures r >= 2 ==> r < |f| && f[r] == 0
  {
    if clst == 0 then
      var scl := if 0 < last < |f| then last else 1;
      Scan(f, scl, scl)
    else
      var n := if clst + 1 < |f| then clst + 1 else 2;
      if f[n] <= 1 then if f[n] == 0 then n else 1
      else
        var scl := if 2 <= last < |f| then last else clst;
        Scan(f, scl, scl)
  }

  lemma {:induction false} ScanSane(f: Fat, scl: nat, ncl: nat)
    requires |f| > 2 && 1 <= scl < |f| && 1 <= ncl < |f| && Sane(f)
    ensures Scan(f, scl, ncl) != 1
    decreases if ncl >= scl then 2 * |f| - ncl else scl - ncl
  {
    var n := if ncl + 1 < |f| then ncl + 1 else 2;
    if !(ncl + 1 >= |f| && 2 > scl) && f[n] > 1 && n != scl {
      ScanSane(f, scl, n);
    }
  }

  /** On a full disk nothing is handed out. */
  lemma PickedNone(f: Fat, last: nat, clst: nat)
    requires |f| > 2 && (clst == 0 || 2 <= clst < |f|) && Sane(f)
    ensures Picked(f, last, clst) != 1 && (NoneFree(f) ==> Picked(f, last, clst) == 0)
  {
    if clst == 0 {
      var scl := if 0 < last < |f| then last else 1;
      ScanSane(f, scl, scl);
    } else {
      var scl := if 2 <= last < |f| then last else clst;
      ScanSane(f, scl, scl);
    }
  }

  // ---------- which cluster is handed out ----------

  /** How many steps it is from `s` to cluster `c`, going up and, at the end of the table, on at cluster 2. */
  function Steps(s: nat, c: nat, n: nat): int {
    if c > s then c - s else c - s + n - 2
  }

  /** Every cluster met on the way from behind `s` to `c` is used, and holds no 1. */
  ghost predicate UsedBefore(f: Fat, s: nat, c: nat) {
    forall d :: 2 <= d < |f| && Steps(s, d, |f|) < Steps(s, c, |f|) ==> f[d] > 1
  }

  /** `r` is the first free cluster met from behind `s` on; 0 if all are used, 1 if an entry of 1 comes first. */
  ghost predicate Nearest(f: Fat, s: nat, r: nat) {
    if r == 0 then forall d :: 2 <= d < |f| ==> f[d] > 1
    else if r == 1 then exists e :: 2 <= e < |f| && f[e] == 1 && UsedBefore(f, s, e)
    else r < |f| && f[r] == 0 && UsedBefore(f, s, r)
  }

  /** What is handed out: for a new chain the first free cluster behind the last one handed out; behind `clst`
      the next cluster, and if that is used, the first free one as for a new chain. */
  ghost predicate Allots(f: Fat, last: nat, clst: nat, r: nat) {
    var next := if clst + 1 < |f| then clst + 1 else 2;
    if clst == 0 || next >= |f| || f[next] > 1 then Nearest(f, if 2 <= last < |f| then last else if clst == 0 then 1 else clst, r)
    else r == if f[next] == 0 then next else 1
  }

  lemma {:induction false} ScanNearest(f: Fat, s: nat, ncl: nat)
    requires |f| > 2 && 1 <= s < |f| && 1 <= ncl < |f| && (ncl == 1 ==> s == 1)
    requires forall d :: 2 <= d < |f| && Steps(s, d, |f|) <= (if ncl == s then 0 else Steps(s, ncl, |f|)) ==> f[d] > 1
    ensures Nearest(f, s, Scan(f, s, ncl))
    decreases if ncl >= s then 2 * |f| - ncl else s - ncl
  {
    var n := if ncl + 1 < |f| then ncl + 1 else 2;
    if ncl + 1 >= |f| && 2 > s {
    } else {
      assert Steps(s, n, |f|) == 1 + if ncl == s then 0 else Steps(s, ncl, |f|);
      if f[n] > 1 && n != s {
        ScanNearest(f, s, n);
      } else {
        assert UsedBefore(f, s, n);
      }
    }
  }

  lemma OneNearest(f: Fat, s: nat, q: nat, r: nat)
    requires Nearest(f, s, q) && Nearest(f, s, r) && 1 <= s < |f|
    ensures q == r
  {
    var a := if q == 1 then var e :| 2 <= e < |f| && f[e] == 1 && UsedBefore(f, s, e); e else q;
    var b := if r == 1 then var e :| 2 <= e < |f| && f[e] == 1 && UsedBefore(f, s, e); e else r;
    assert a != 0 && b != 0 ==> Steps(s, a, |f|) == Steps(s, b, |f|);
  }

  /** The scan hands out just that. */
  lemma PickedIs(f: Fat, last: nat, clst: nat, r: nat)
    requires |f| > 2 && (clst == 0 || 2 <= clst < |f|)
    ensures Allots(f, last, clst, r) <==> r == Picked(f, last, clst)
  {
    var s := if 2 <= last < |f| then last else if clst == 0 then 1 else clst;
    ScanNearest(f, s, s);
    if Nearest(f, s, r) {
      OneNearest(f, s, r, Scan(f, s, s));
    }
  }

  /** The table after cluster `n` was marked as an end and linked behind `clst` (0: nothing). */
  ghost function Linked(f: Fat, clst: nat, n: nat, eoc: nat): Fat
    requires n < |f| && clst < |f|
  {
    if clst == 0 then f[n := eoc] else f[n := eoc][clst := n]
  }

  /** `clst` is the end of a chain, or 0 to start a new one. */
  ghost predicate NeedsCluster(f: Fat, clst: nat) {
    clst == 0 || (2 <= clst < |f| && f[clst] >= |f|)
  }

  /** What allocating behind `clst` answers (`r`) and does to table `f` when `k` clusters are
      said to be free. */
  ghost predicate Allocation(f: Fat, g: Fat, k: nat, clst: nat, r: nat, eoc: nat) {
    if !NeedsCluster(f, clst) then
      g == f && r == if 2 <= clst < |f| && 2 <= f[clst] then f[clst] else 1
    else
      || (r == 0 && g == f && (k == 0 || NoneFree(f)))
      || (r == 1 && g == f && !Sane(f))
      || (k != 0 && 2 <= r < |f| && f[r] == 0 && g == Linked(f, clst, r, eoc))
  }

  /** "No space" is answered exactly when no entry is zero. */
  lemma NoSpaceIffNoneFree(f: Fat, g: Fat, k: nat, clst: nat, r: nat, eoc: nat)
    requires |f| > 2 && NeedsCluster(f, clst) && Sane(f) && CountsFree(k, f)
    requires Allocation(f, g, k, clst, r, eoc)
    ensures r == 0 <==> NoneFree(f)
  {
    FreeBelowZero(f, |f|);
  }

  /** Allocating for file `k` of a well-formed table either finds the disk full or appends one
      previously free cluster to that file and touches no other. */
  lemma AllocationKeeps(f: Fat, g: Fat, chains: seq<seq<nat>>, k: nat, free: nat, r: nat, eoc: nat)
    requires WellFormed(f, chains) && k < |chains| && Sane(f) && eoc >= |f| && |f| > 2 && CountsFree(free, f)
    requires Allocation(f, g, free, if chains[k] == [] then 0 else chains[k][|chains[k]| - 1], r, eoc)
    ensures r == 0 <==> NoneFree(f)
    ensures r == 0 ==> g == f
    ensures r != 0 ==> 2 <= r < |f| && f[r] == 0 && WellFormed(g, chains[k := chains[k] + [r]])
    ensures r != 0 ==> g == Stretched(f, chains[k], r, eoc)
    ensures r != 0 && eoc > 1 ==> Sane(g)
  {
    var ch := chains[k];
    var clst := if ch == [] then 0 else ch[|ch| - 1];
    NoSpaceIffNoneFree(f, g, free, clst, r, eoc);
    if r != 0 {
      StretchKeeps(f, chains, k, r, eoc);
    }
  }

  /** Removing file `k` from its `i`-th cluster on, as the file system asks for it: the clusters
      before become a complete chain and the rest of the file, nothing else, becomes free. */
  lemma RemovalKeeps(f: Fat, chains: seq<seq<nat>>, k: nat, i: nat, eoc: nat)
    requires WellFormed(f, chains) && k < |chains| && i < |chains[k]| && eoc >= |f|
    ensures var ch := chains[k];
            Removed(if i == 0 then f else f[ch[i - 1] := eoc], ch[i]) == Removal(Cut(f, ch, i, eoc), true)
    ensures WellFormed(Cut(f, chains[k], i, eoc), chains[k := chains[k][..i]])
  {
    var ch := chains[k];
    CutKeeps(f, chains, k, i, eoc);
    SuffixIsChain(f, ch, i);
    ChainAcyclic(f, ch);
    var g := if i == 0 then f else f[ch[i - 1] := eoc];
    ChainFrame(f, g, ch[i..]);
    RemovedSuffix(g, ch[i..]);
  }
}
