/** Bentley and McIlroy's quicksort: median of three or of nine, three-way partition, insertion sort
    for short stretches and for those a partition found already split, recursion on the smaller
    elements and a loop on the larger ones.  Pointers are indices of whole elements. */
module Qsort {
  import opened PrioQueue
  import opened SortState

  /** All elements from `lo0` up to `lo` come before those from `lo` up to `hi`. */
  ghost predicate Ahead<T(!new)>(cmp: (T, T) -> int, s: seq<T>, lo0: nat, lo: nat, hi: nat) {
    hi <= |s| && forall i, j :: lo0 <= i < lo <= j < hi ==> cmp(s[i], s[j]) <= 0
  }

  lemma AheadKept<T(!new)>(cmp: (T, T) -> int, s: seq<T>, t: seq<T>, lo0: nat, lo: nat, hi: nat)
    requires Ahead(cmp, s, lo0, lo, hi) && Permuted(s, t, lo, hi)
    ensures Ahead(cmp, t, lo0, lo, hi)
    ensures SortedIn(cmp, s, lo0, lo) ==> SortedIn(cmp, t, lo0, lo)
  {
    forall i | lo0 <= i < lo
      ensures forall j :: lo <= j < hi ==> cmp(t[i], t[j]) <= 0
    {
      PermutedAll(s, t, lo, hi, y => cmp(s[i], y) <= 0);
    }
  }

  /** Sorting what is left. */
  lemma AheadSorted<T(!new)>(cmp: (T, T) -> int, s: seq<T>, lo0: nat, lo: nat, hi: nat)
    requires Ahead(cmp, s, lo0, lo, hi) && SortedIn(cmp, s, lo0, lo) && SortedIn(cmp, s, lo, hi)
    ensures SortedIn(cmp, s, lo0, hi)
  {
  }

  lemma Through<T(!new)>(cmp: (T, T) -> int, x: T, y: T, p: T)
    requires TotalPreorder(cmp) && cmp(x, p) <= 0 && cmp(y, p) >= 0
    ensures cmp(x, y) <= 0
  {
    assert cmp(p, y) <= 0;
  }

  /** Split in three with the smaller elements sorted: all that is in front of the larger ones is in
      order, and comes before them. */
  lemma SplitAhead<T(!new)>(cmp: (T, T) -> int, s: seq<T>, p: T, lo: nat, l: nat, g: nat, hi: nat)
    requires TotalPreorder(cmp) && Split3(cmp, s, p, lo, l, g, hi) && SortedIn(cmp, s, lo, l)
    ensures SortedIn(cmp, s, lo, g) && Ahead(cmp, s, lo, g, hi)
  {
    forall i, j | lo <= i < j < hi && i < g
      ensures j < l || cmp(s[i], s[j]) <= 0
    {
      if j >= l {
        Through(cmp, s[i], s[j], p);
      }
    }
  }

  lemma AheadFurther<T(!new)>(cmp: (T, T) -> int, s: seq<T>, lo0: nat, lo: nat, g: nat, hi: nat)
    requires Ahead(cmp, s, lo0, lo, hi) && SortedIn(cmp, s, lo0, lo) && SortedIn(cmp, s, lo, g) && Ahead(cmp, s, lo, g, hi)
    requires lo0 <= lo <= g <= hi
    ensures Ahead(cmp, s, lo0, g, hi) && SortedIn(cmp, s, lo0, g)
  {
  }

  /** Sorting the smaller elements keeps the split. */
  lemma SplitKept<T(!new)>(cmp: (T, T) -> int, s: seq<T>, t: seq<T>, p: T, lo: nat, l: nat, g: nat, hi: nat)
    requires Split3(cmp, s, p, lo, l, g, hi) && Permuted(s, t, lo, l)
    ensures Split3(cmp, t, p, lo, l, g, hi)
  {
    PermutedAll(s, t, lo, l, y => cmp(y, p) < 0);
  }

  // ---------- the algorithm ----------

  method Swap<T>(a: array<T>, i: nat, j: nat)
    requires i < a.Length && j < a.Length
    modifies a
    ensures a[..] == Swapped(old(a[..]), i, j)
  {
    a[i], a[j] := a[j], a[i];
  }

  /** The index of the median of three elements. */
  function Med3<T>(s: seq<T>, a: nat, b: nat, c: nat, cmp: (T, T) -> int): (m: nat)
    requires a < |s| && b < |s| && c < |s|
    ensures m == a || m == b || m == c
  {
    if cmp(s[a], s[b]) < 0 then
      if cmp(s[b], s[c]) < 0 then b else if cmp(s[a], s[c]) < 0 then c else a
    else
      if cmp(s[b], s[c]) > 0 then b else if cmp(s[a], s[c]) < 0 then a else c
  }

  /** `y` lies between the other two. */
  ghost predicate Between<T(!new)>(cmp: (T, T) -> int, x: T, y: T, z: T) {
    (cmp(x, y) <= 0 && cmp(y, z) <= 0) || (cmp(z, y) <= 0 && cmp(y, x) <= 0)
  }

  /** The element chosen lies between the other two. */
  lemma Med3IsMedian<T(!new)>(s: seq<T>, a: nat, b: nat, c: nat, cmp: (T, T) -> int)
    requires a < |s| && b < |s| && c < |s| && TotalPreorder(cmp)
    ensures var m := Med3(s, a, b, c, cmp);
            || (m == a && Between(cmp, s[b], s[a], s[c]))
            || (m == b && Between(cmp, s[a], s[b], s[c]))
            || (m == c && Between(cmp, s[a], s[c], s[b]))
  {
    var x, y, z := s[a], s[b], s[c];
    assert cmp(x, y) <= 0 <==> cmp(y, x) >= 0;
    assert cmp(y, z) <= 0 <==> cmp(z, y) >= 0;
    assert cmp(x, z) <= 0 <==> cmp(z, x) >= 0;
  }

  lemma MoreSwapped<T>(was: seq<T>, s: seq<T>, i: nat, j: nat, lo: nat, hi: nat)
    requires Permuted(was, s, lo, hi) && lo <= i < hi && lo <= j < hi && hi <= |s|
    ensures Permuted(was, Swapped(s, i, j), lo, hi)
  {
    SwapPermutes(s, i, j, lo, hi);
  }

  /** Let the element at `pm` sink to its place in the sorted stretch in front of it. */
  method Sink<T(!new)>(a: array<T>, lo: nat, pm: nat, hi: nat, cmp: (T, T) -> int)
    requires TotalPreorder(cmp) && lo < pm < hi <= a.Length && SortedIn(cmp, a[..], lo, pm)
    modifies a
    ensures SortedIn(cmp, a[..], lo, pm + 1) && Permuted(old(a[..]), a[..], lo, hi)
  {
    hide *;
    ghost var was := a[..];
    var pl := pm;
    PermutedSame(was, lo, hi);
    SinkStart(cmp, was, lo, pm);
    while pl > lo && cmp(a[pl - 1], a[pl]) > 0
      invariant lo <= pl <= pm && Sinking(cmp, a[..], lo, pl, pm) && Permuted(was, a[..], lo, hi)
    {
      SinkStep(cmp, a[..], lo, pl, pm);
      MoreSwapped(was, a[..], pl, pl - 1, lo, hi);
      Swap(a, pl, pl - 1);
      pl := pl - 1;
    }
    SinkEnd(cmp, a[..], lo, pl, pm);
  }

  method InsertionSort<T(!new)>(a: array<T>, lo: nat, hi: nat, cmp: (T, T) -> int)
    requires TotalPreorder(cmp) && lo <= hi <= a.Length
    modifies a
    ensures SortedIn(cmp, a[..], lo, hi) && Permuted(old(a[..]), a[..], lo, hi)
  {
    hide *;
    ghost var was := a[..];
    PermutedSame(was, lo, hi);
    OneSorted(cmp, was, lo, hi);
    var pm := lo + 1;
    while pm < hi
      invariant lo < pm && (if pm < hi then SortedIn(cmp, a[..], lo, pm) else SortedIn(cmp, a[..], lo, hi))
      invariant Permuted(was, a[..], lo, hi)
    {
      ghost var s := a[..];
      Sink(a, lo, pm, hi, cmp);
      PermutedTwice(was, s, a[..], lo, hi);
      pm := pm + 1;
    }
  }

  lemma OneSorted<T(!new)>(cmp: (T, T) -> int, s: seq<T>, lo: nat, hi: nat)
    requires lo <= hi <= |s|
    ensures hi <= lo + 1 ==> SortedIn(cmp, s, lo, hi)
    ensures lo < hi ==> SortedIn(cmp, s, lo, lo + 1)
  {
  }

  // ---------- partition ----------

  /** Move up over smaller elements, bringing equal ones to the front. */
  method ScanUp<T(!new)>(a: array<T>, lo: nat, hi: nat, pa0: nat, pb0: nat, pc: nat, pd: nat, cmp: (T, T) -> int)
    returns (pa: nat, pb: nat, moved: bool)
    requires hi <= a.Length && Splitting(cmp, a[..], lo, hi, pa0, pb0, pc, pd)
    modifies a
    ensures Splitting(cmp, a[..], lo, hi, pa, pb, pc, pd) && Permuted(old(a[..]), a[..], lo, hi)
    ensures a[lo] == old(a[lo]) && pb0 <= pb && (pb <= pc ==> cmp(a[pb], a[lo]) > 0)
    ensures pb - pb0 <= pc + 1 - pb0 && (!moved ==> a[..] == old(a[..]))
  {
    hide Permuted, Swapped;
    pa, pb, moved := pa0, pb0, false;
    ghost var was := a[..];
    PermutedSame(was, lo, hi);
    while pb <= pc && cmp(a[pb], a[lo]) <= 0
      invariant Splitting(cmp, a[..], lo, hi, pa, pb, pc, pd) && Permuted(was, a[..], lo, hi)
      invariant a[lo] == was[lo] && pb0 <= pb <= pc + 1 && (!moved ==> a[..] == was)
    {
      ghost var s := a[..];
      SplitSmaller(cmp, s, lo, hi, pa, pb, pc, pd);
      if cmp(a[pb], a[lo]) == 0 {
        moved := true;
        SwapPermutes(s, pa, pb, lo, hi);
        SwapAt(s, pa, pb, lo);
        Swap(a, pa, pb);
        PermutedTwice(was, s, a[..], lo, hi);
        pa := pa + 1;
      }
      pb := pb + 1;
    }
  }

  lemma SwapAt<T>(s: seq<T>, i: nat, j: nat, k: nat)
    requires i < |s| && j < |s| && k < |s|
    ensures Swapped(s, i, j)[k] == if k == j then s[i] else if k == i then s[j] else s[k]
  {
  }

  /** Move down over larger elements, bringing equal ones to the back. */
  method ScanDown<T(!new)>(a: array<T>, lo: nat, hi: nat, pa: nat, pb: nat, pc0: nat, pd0: nat, cmp: (T, T) -> int)
    returns (pc: nat, pd: nat, moved: bool)
    requires hi <= a.Length && Splitting(cmp, a[..], lo, hi, pa, pb, pc0, pd0)
    modifies a
    ensures Splitting(cmp, a[..], lo, hi, pa, pb, pc, pd) && Permuted(old(a[..]), a[..], lo, hi)
    ensures a[lo] == old(a[lo]) && pc <= pc0 && (pb <= pc ==> cmp(a[pc], a[lo]) < 0)
    ensures pb <= pc0 ==> a[pb] == old(a[pb]) || pc < pb
    ensures !moved ==> a[..] == old(a[..])
  {
    hide Permuted, Swapped;
    pc, pd, moved := pc0, pd0, false;
    ghost var was := a[..];
    PermutedSame(was, lo, hi);
    while pb <= pc && cmp(a[pc], a[lo]) >= 0
      invariant Splitting(cmp, a[..], lo, hi, pa, pb, pc, pd) && Permuted(was, a[..], lo, hi)
      invariant a[lo] == was[lo] && pc <= pc0
      invariant (pb <= pc ==> a[pb] == was[pb]) && (!moved ==> a[..] == was)
    {
      ghost var s := a[..];
      SplitLarger(cmp, s, lo, hi, pa, pb, pc, pd);
      if cmp(a[pc], a[lo]) == 0 {
        moved := true;
        SwapPermutes(s, pc, pd, lo, hi);
        SwapAt(s, pc, pd, lo);
        SwapAt(s, pc, pd, pb);
        Swap(a, pc, pd);
        PermutedTwice(was, s, a[..], lo, hi);
        pd := pd - 1;
      }
      pc := pc - 1;
    }
  }

  /** Split the stretch around the pivot at `lo`; `moved` is false if nothing had to be swapped. */
  method Partition<T(!new)>(a: array<T>, lo: nat, hi: nat, cmp: (T, T) -> int)
    returns (pa: nat, pb: nat, pc: nat, pd: nat, moved: bool)
    requires TotalPreorder(cmp) && lo + 1 < hi <= a.Length
    modifies a
    ensures Splitting(cmp, a[..], lo, hi, pa, pb, pc, pd) && pb == pc + 1 && Permuted(old(a[..]), a[..], lo, hi)
    ensures a[lo] == old(a[lo]) && (!moved ==> a[..] == old(a[..]))
  {
    hide Permuted, Swapped, TotalPreorder, Splitting;
    ghost var was := a[..];
    PermutedSame(was, lo, hi);
    SplitStart(cmp, a[..], lo, hi);
    pa, pb, pc, pd, moved := lo + 1, lo + 1, hi - 1, hi - 1, false;
    while true
      invariant Splitting(cmp, a[..], lo, hi, pa, pb, pc, pd) && Permuted(was, a[..], lo, hi)
      invariant a[lo] == was[lo] && pb <= pc + 1 && (!moved ==> a[..] == was)
      decreases pc + 1 - pb
    {
      ghost var s := a[..];
      var up, down;
      pa, pb, up := ScanUp(a, lo, hi, pa, pb, pc, pd, cmp);
      ghost var t := a[..];
      PermutedTwice(was, s, t, lo, hi);
      pc, pd, down := ScanDown(a, lo, hi, pa, pb, pc, pd, cmp);
      ghost var u := a[..];
      PermutedTwice(was, t, u, lo, hi);
      moved := moved || up || down;
      SplitBounds(cmp, u, lo, hi, pa, pb, pc, pd);
      if pb > pc {
        break;
      }
      SplitSwap(cmp, u, lo, hi, pa, pb, pc, pd);
      SwapPermutes(u, pb, pc, lo, hi);
      SwapAt(u, pb, pc, lo);
      Swap(a, pb, pc);
      PermutedTwice(was, u, a[..], lo, hi);
      moved := true;
      pb := pb + 1;
      pc := pc - 1;
    }
  }

  lemma SplitBounds<T(!new)>(cmp: (T, T) -> int, s: seq<T>, lo: nat, hi: nat, pa: nat, pb: nat, pc: nat, pd: nat)
    requires Splitting(cmp, s, lo, hi, pa, pb, pc, pd)
    ensures lo < pa <= pb <= pc + 1 && pc <= pd < hi <= |s|
  {
  }

  /** Exchange two blocks of `r` elements. */
  method VecSwap<T>(a: array<T>, x: nat, y: nat, r: nat, ghost lo: nat, ghost hi: nat)
    requires lo <= x && x + r <= y && y + r <= hi <= a.Length
    modifies a
    ensures Exchanged(old(a[..]), a[..], x, y, r) && Permuted(old(a[..]), a[..], lo, hi)
  {
    hide Permuted, Swapped, Exchanged;
    ghost var was := a[..];
    PermutedSame(was, lo, hi);
    NoneExchanged(was, x, y);
    var i := 0;
    while i < r
      invariant i <= r && Exchanged(was, a[..], x, y, i) && Permuted(was, a[..], lo, hi)
    {
      ghost var s := a[..];
      ExchangeStep(was, s, x, y, i);
      SwapPermutes(s, x + i, y + i, lo, hi);
      Swap(a, x + i, y + i);
      PermutedTwice(was, s, a[..], lo, hi);
      i := i + 1;
    }
  }

  lemma NoneExchanged<T>(s: seq<T>, x: nat, y: nat)
    requires x <= y <= |s|
    ensures Exchanged(s, s, x, y, 0)
  {
  }

  lemma ExchangeStep<T>(s: seq<T>, t: seq<T>, x: nat, y: nat, i: nat)
    requires Exchanged(s, t, x, y, i) && x + i < y && y + i < |s|
    ensures Exchanged(s, Swapped(t, x + i, y + i), x, y, i + 1)
  {
  }

  /** Choose a pivot and bring it to the front. */
  method BringPivot<T(!new)>(a: array<T>, lo: nat, n: nat, cmp: (T, T) -> int)
    requires 7 <= n && lo + n <= a.Length
    modifies a
    ensures Permuted(old(a[..]), a[..], lo, lo + n)
  {
    hide Permuted, Med3, Swapped;
    var pm := Pivot(a[..], lo, n, cmp);
    SwapPermutes(a[..], lo, pm, lo, lo + n);
    Swap(a, lo, pm);
  }

  /** The middle element, the median of three, or for many elements the median of three medians. */
  function Pivot<T>(s: seq<T>, lo: nat, n: nat, cmp: (T, T) -> int): (m: nat)
    requires 7 <= n && lo + n <= |s|
    ensures lo <= m < lo + n
  {
    var pm := lo + n / 2;
    if n == 7 then pm
    else if n <= 40 then Med3(s, lo, pm, lo + n - 1, cmp)
    else
      var d := n / 8;
      assert 5 <= d && 8 * d <= n && 4 * d <= n / 2;
      var pn := lo + n - 1;
      Med3(s, Med3(s, lo, lo + d, lo + 2 * d, cmp), Med3(s, pm - d, pm, pm + d, cmp), Med3(s, pn - 2 * d, pn - d, pn, cmp), cmp)
  }

  /** Bring the elements equal to the pivot from both ends to the middle. */
  method Gather<T(!new)>(a: array<T>, lo: nat, hi: nat, pa: nat, pb: nat, pc: nat, pd: nat, cmp: (T, T) -> int)
    requires hi <= a.Length && Splitting(cmp, a[..], lo, hi, pa, pb, pc, pd) && pb == pc + 1
    modifies a
    ensures Permuted(old(a[..]), a[..], lo, hi)
    ensures Split3(cmp, a[..], old(a[lo]), lo, lo + (pb - pa), hi - (pd - pc), hi)
  {
    hide Permuted, Splitting, Exchanged, Split3;
    ghost var s := a[..];
    SplitBounds(cmp, s, lo, hi, pa, pb, pc, pd);
    var r := Min(pa - lo, pb - pa);
    VecSwap(a, lo, pb - r, r, lo, hi);
    ghost var t := a[..];
    r := Min(pd - pc, hi - pd - 1);
    VecSwap(a, pb, hi - r, r, lo, hi);
    PermutedTwice(s, t, a[..], lo, hi);
    SplitEnd(cmp, s, t, a[..], lo, hi, pa, pb, pc, pd);
  }

  /** Sort the smaller elements of a stretch that has been split around the pivot; what is left are
      the larger ones. */
  method SortSmaller<T(!new)>(a: array<T>, lo: nat, hi: nat, pa: nat, pb: nat, pc: nat, pd: nat, cmp: (T, T) -> int)
    returns (rest: nat)
    requires TotalPreorder(cmp) && hi <= a.Length && Splitting(cmp, a[..], lo, hi, pa, pb, pc, pd) && pb == pc + 1
    modifies a
    ensures lo <= hi && rest < hi - lo && Permuted(old(a[..]), a[..], lo, hi)
    ensures SortedIn(cmp, a[..], lo, hi - rest) && Ahead(cmp, a[..], lo, hi - rest, hi)
    decreases hi - lo, 0
  {
    hide *;
    ghost var t := a[..];
    SplitBounds(cmp, t, lo, hi, pa, pb, pc, pd);
    ghost var p := a[lo];
    Gather(a, lo, hi, pa, pb, pc, pd, cmp);
    ghost var u := a[..];
    var r := pb - pa;
    rest := pd - pc;
    if r > 1 {
      Qsort(a, lo, r, cmp);
    } else {
      PermutedSame(u, lo, lo + r);
      OneSorted(cmp, u, lo, lo + r);
    }
    SmallerSorted(cmp, t, u, a[..], p, lo, r, hi - rest, hi);
  }

  /** What follows the partition: if nothing was moved the stretch is nearly sorted. */
  method AfterPartition<T(!new)>(a: array<T>, lo: nat, hi: nat, pa: nat, pb: nat, pc: nat, pd: nat, moved: bool, cmp: (T, T) -> int)
    returns (rest: nat)
    requires TotalPreorder(cmp) && lo + 1 < hi <= a.Length && Splitting(cmp, a[..], lo, hi, pa, pb, pc, pd) && pb == pc + 1
    modifies a
    ensures rest < hi - lo && Permuted(old(a[..]), a[..], lo, hi)
    ensures SortedIn(cmp, a[..], lo, hi - rest) && Ahead(cmp, a[..], lo, hi - rest, hi)
    decreases hi - lo, 1
  {
    hide *;
    if moved {
      rest := SortSmaller(a, lo, hi, pa, pb, pc, pd, cmp);
    } else {
      InsertionSort(a, lo, hi, cmp);
      NothingLeft(cmp, a[..], lo, hi);
      rest := 0;
    }
  }

  /** A round on at least seven elements. */
  method LongRound<T(!new)>(a: array<T>, lo: nat, n: nat, cmp: (T, T) -> int) returns (rest: nat)
    requires TotalPreorder(cmp) && 7 <= n && lo + n <= a.Length
    modifies a
    ensures rest < n && Permuted(old(a[..]), a[..], lo, lo + n)
    ensures SortedIn(cmp, a[..], lo, lo + n - rest) && Ahead(cmp, a[..], lo, lo + n - rest, lo + n)
    decreases n, 2
  {
    hide *;
    ghost var was := a[..];
    BringPivot(a, lo, n, cmp);
    ghost var s := a[..];
    var pa, pb, pc, pd, moved := Partition(a, lo, lo + n, cmp);
    ghost var t := a[..];
    PermutedTwice(was, s, t, lo, lo + n);
    rest := AfterPartition(a, lo, lo + n, pa, pb, pc, pd, moved, cmp);
    PermutedTwice(was, t, a[..], lo, lo + n);
  }

  /** One round: the stretch is sorted outright (`rest` is 0), or everything in front of its last
      `rest` elements is sorted and comes before them. */
  method Round<T(!new)>(a: array<T>, lo: nat, n: nat, cmp: (T, T) -> int) returns (rest: nat)
    requires TotalPreorder(cmp) && lo + n <= a.Length && n > 0
    modifies a
    ensures rest < n && Permuted(old(a[..]), a[..], lo, lo + n)
    ensures SortedIn(cmp, a[..], lo, lo + n - rest) && Ahead(cmp, a[..], lo, lo + n - rest, lo + n)
    decreases n, 3
  {
    hide *;
    if n < 7 {
      InsertionSort(a, lo, lo + n, cmp);
      NothingLeft(cmp, a[..], lo, lo + n);
      rest := 0;
    } else {
      rest := LongRound(a, lo, n, cmp);
    }
  }

  /** With the smaller elements sorted only the larger ones are left. */
  lemma SmallerSorted<T(!new)>(cmp: (T, T) -> int, was: seq<T>, u: seq<T>, t: seq<T>, p: T, lo: nat, r: nat, g: nat, hi: nat)
    requires TotalPreorder(cmp) && Permuted(was, u, lo, hi) && Split3(cmp, u, p, lo, lo + r, g, hi)
    requires Permuted(u, t, lo, lo + r) && SortedIn(cmp, t, lo, lo + r)
    ensures Permuted(was, t, lo, hi) && SortedIn(cmp, t, lo, g) && Ahead(cmp, t, lo, g, hi)
  {
    hide *;
    SplitIndices(cmp, u, p, lo, lo + r, g, hi);
    PermutedWider(u, t, lo, lo + r, lo, hi);
    PermutedTwice(was, u, t, lo, hi);
    SplitKept(cmp, u, t, p, lo, lo + r, g, hi);
    SplitAhead(cmp, t, p, lo, lo + r, g, hi);
  }

  lemma SplitIndices<T(!new)>(cmp: (T, T) -> int, s: seq<T>, p: T, lo: nat, l: nat, g: nat, hi: nat)
    requires Split3(cmp, s, p, lo, l, g, hi)
    ensures lo <= l < g <= hi <= |s|
  {
  }

  lemma NothingLeft<T(!new)>(cmp: (T, T) -> int, s: seq<T>, lo: nat, hi: nat)
    requires hi <= |s|
    ensures Ahead(cmp, s, lo, hi, hi)
  {
  }

  /** Sort the `n` elements from `lo0` on: a permutation of them in order, and nothing else touched. */
  method Qsort<T(!new)>(a: array<T>, lo0: nat, n0: nat, cmp: (T, T) -> int)
    requires TotalPreorder(cmp) && lo0 + n0 <= a.Length
    modifies a
    ensures SortedIn(cmp, a[..], lo0, lo0 + n0) && Permuted(old(a[..]), a[..], lo0, lo0 + n0)
    decreases n0, 4
  {
    hide *;
    ghost var was := a[..];
    var lo, n := lo0, n0;
    PermutedSame(was, lo0, lo0 + n0);
    QsortStart(cmp, was, lo0, lo0 + n0);
    while n > 1
      invariant lo0 <= lo && lo + n == lo0 + n0
      invariant SortedIn(cmp, a[..], lo0, lo) && Ahead(cmp, a[..], lo0, lo, lo + n)
      invariant Permuted(was, a[..], lo0, lo0 + n0)
      decreases n
    {
      ghost var s := a[..];
      var rest := Round(a, lo, n, cmp);
      RoundKeeps(cmp, was, s, a[..], lo0, lo, n, rest);
      lo, n := lo + n - rest, rest;
    }
    QsortEnd(cmp, a[..], lo0, lo, lo + n);
  }

  /** What a round does for the whole stretch. */
  lemma RoundKeeps<T(!new)>(cmp: (T, T) -> int, was: seq<T>, s: seq<T>, t: seq<T>, lo0: nat, lo: nat, n: nat, rest: nat)
    requires lo0 <= lo && rest <= n && Permuted(was, s, lo0, lo + n) && Permuted(s, t, lo, lo + n)
    requires SortedIn(cmp, s, lo0, lo) && Ahead(cmp, s, lo0, lo, lo + n)
    requires SortedIn(cmp, t, lo, lo + n - rest) && Ahead(cmp, t, lo, lo + n - rest, lo + n)
    ensures Permuted(was, t, lo0, lo + n)
    ensures SortedIn(cmp, t, lo0, lo + n - rest) && Ahead(cmp, t, lo0, lo + n - rest, lo + n)
  {
    hide *;
    Stretch(s, t, lo, lo + n);
    PermutedWider(s, t, lo, lo + n, lo0, lo + n);
    PermutedTwice(was, s, t, lo0, lo + n);
    AheadKept(cmp, s, t, lo0, lo, lo + n);
    AheadFurther(cmp, t, lo0, lo, lo + n - rest, lo + n);
  }

  lemma Stretch<T>(s: seq<T>, t: seq<T>, lo: nat, hi: nat)
    requires Permuted(s, t, lo, hi)
    ensures hi <= |s|
  {
  }

  lemma QsortEnd<T(!new)>(cmp: (T, T) -> int, s: seq<T>, lo0: nat, lo: nat, hi: nat)
    requires lo <= hi <= lo + 1 && hi <= |s| && SortedIn(cmp, s, lo0, lo) && Ahead(cmp, s, lo0, lo, hi)
    ensures SortedIn(cmp, s, lo0, hi)
  {
    OneSorted(cmp, s, lo, hi);
    AheadSorted(cmp, s, lo0, lo, hi);
  }

  lemma QsortStart<T(!new)>(cmp: (T, T) -> int, s: seq<T>, lo: nat, hi: nat)
    requires lo <= hi <= |s|
    ensures SortedIn(cmp, s, lo, lo) && Ahead(cmp, s, lo, lo, hi)
  {
  }
}
