/** Order and permutation of a stretch of an array, and what swaps do to them. */
module SortState {
  import opened PrioQueue

  ghost predicate SortedIn<T(!new)>(cmp: (T, T) -> int, s: seq<T>, lo: nat, hi: nat) {
    hi <= |s| && forall i, j :: lo <= i < j < hi ==> cmp(s[i], s[j]) <= 0
  }

  /** `t` is `s` with the elements from `lo` up to `hi` permuted and all others left alone. */
  ghost predicate Permuted<T>(s: seq<T>, t: seq<T>, lo: nat, hi: nat) {
    && lo <= hi <= |s| == |t|
    && multiset(t[lo..hi]) == multiset(s[lo..hi])
    && (forall i :: 0 <= i < |s| && !(lo <= i < hi) ==> t[i] == s[i])
  }

  function Swapped<T>(s: seq<T>, i: nat, j: nat): (r: seq<T>)
    requires i < |s| && j < |s|
    ensures |r| == |s|
  {
    s[i := s[j]][j := s[i]]
  }

  lemma SwapPermutes<T>(s: seq<T>, i: nat, j: nat, lo: nat, hi: nat)
    requires lo <= i < hi && lo <= j < hi && hi <= |s|
    ensures Permuted(s, Swapped(s, i, j), lo, hi)
  {
    assert Swapped(s, i, j)[lo..hi] == Swapped(s[lo..hi], i - lo, j - lo);
    SwapSameBag(s[lo..hi], i - lo, j - lo);
  }

  lemma SwapSameBag<T>(s: seq<T>, i: nat, j: nat)
    requires i < |s| && j < |s|
    ensures multiset(Swapped(s, i, j)) == multiset(s)
  {
    if i != j {
      var b := s[i := s[j]];
      assert multiset(b) == multiset(s) - multiset{s[i]} + multiset{s[j]};
      assert b[j] == s[j];
      assert multiset(b[j := s[i]]) == multiset(b) - multiset{s[j]} + multiset{s[i]};
      assert s[i] in multiset(s);
    } else {
      assert Swapped(s, i, j) == s;
    }
  }

  lemma PermutedTwice<T>(s: seq<T>, t: seq<T>, u: seq<T>, lo: nat, hi: nat)
    requires Permuted(s, t, lo, hi) && Permuted(t, u, lo, hi)
    ensures Permuted(s, u, lo, hi)
  {
  }

  lemma PermutedSame<T>(s: seq<T>, lo: nat, hi: nat)
    requires lo <= hi <= |s|
    ensures Permuted(s, s, lo, hi)
  {
  }

  /** A permutation of a part is one of the whole. */
  lemma PermutedWider<T>(s: seq<T>, t: seq<T>, a: nat, b: nat, lo: nat, hi: nat)
    requires Permuted(s, t, a, b) && lo <= a && b <= hi <= |s|
    ensures Permuted(s, t, lo, hi)
  {
    assert s[lo..hi] == s[lo..a] + s[a..b] + s[b..hi];
    assert t[lo..hi] == t[lo..a] + t[a..b] + t[b..hi];
    assert t[lo..a] == s[lo..a] && t[b..hi] == s[b..hi];
  }

  /** What holds of all elements of a stretch still does after a permutation of it. */
  lemma PermutedAll<T>(s: seq<T>, t: seq<T>, lo: nat, hi: nat, p: T -> bool)
    requires Permuted(s, t, lo, hi) && forall i :: lo <= i < hi ==> p(s[i])
    ensures forall i :: lo <= i < hi ==> p(t[i])
  {
    forall i | lo <= i < hi
      ensures p(t[i])
    {
      assert t[lo..hi][i - lo] in multiset(t[lo..hi]);
      assert t[i] in multiset(s[lo..hi]);
      var k :| 0 <= k < hi - lo && s[lo..hi][k] == t[i];
      assert p(s[lo + k]);
    }
  }

  // ---------- insertion sort ----------

  /** Up to `m` the elements are in order but for the one at `l`, which is on its way down. */
  ghost predicate Sinking<T(!new)>(cmp: (T, T) -> int, s: seq<T>, lo: nat, l: nat, m: nat) {
    && lo <= l <= m < |s|
    && (forall i, j :: lo <= i < j <= m && i != l && j != l ==> cmp(s[i], s[j]) <= 0)
    && (forall j :: l < j <= m ==> cmp(s[l], s[j]) <= 0)
  }

  lemma SinkStart<T(!new)>(cmp: (T, T) -> int, s: seq<T>, lo: nat, m: nat)
    requires SortedIn(cmp, s, lo, m) && lo <= m < |s|
    ensures Sinking(cmp, s, lo, m, m)
  {
  }

  lemma SinkStep<T(!new)>(cmp: (T, T) -> int, s: seq<T>, lo: nat, l: nat, m: nat)
    requires TotalPreorder(cmp) && Sinking(cmp, s, lo, l, m) && l > lo && cmp(s[l - 1], s[l]) > 0
    ensures Sinking(cmp, Swapped(s, l, l - 1), lo, l - 1, m)
  {
    assert cmp(s[l], s[l - 1]) <= 0;
  }

  lemma SinkEnd<T(!new)>(cmp: (T, T) -> int, s: seq<T>, lo: nat, l: nat, m: nat)
    requires TotalPreorder(cmp) && Sinking(cmp, s, lo, l, m) && (l == lo || cmp(s[l - 1], s[l]) <= 0)
    ensures SortedIn(cmp, s, lo, m + 1)
  {
    forall i, j | lo <= i < j <= m
      ensures cmp(s[i], s[j]) <= 0
    {
      if j == l && i < l - 1 {
        assert cmp(s[i], s[l - 1]) <= 0;
      }
    }
  }

  // ---------- three-way partition ----------

  /** Around the pivot at `lo`: equal elements at both ends, smaller ones behind the first, larger
      ones in front of the last, and what has not been looked at from `pb` to `pc`. */
  ghost predicate Splitting<T(!new)>(cmp: (T, T) -> int, s: seq<T>, lo: nat, hi: nat, pa: nat, pb: nat, pc: nat, pd: nat) {
    && lo < pa <= pb <= pc + 1 && pc <= pd < hi <= |s|
    && (forall i :: lo <= i < pa ==> cmp(s[i], s[lo]) == 0)
    && (forall i :: pa <= i < pb ==> cmp(s[i], s[lo]) < 0)
    && (forall i :: pc < i <= pd ==> cmp(s[i], s[lo]) > 0)
    && (forall i :: pd < i < hi ==> cmp(s[i], s[lo]) == 0)
  }

  lemma SplitStart<T(!new)>(cmp: (T, T) -> int, s: seq<T>, lo: nat, hi: nat)
    requires TotalPreorder(cmp) && lo + 1 < hi <= |s|
    ensures Splitting(cmp, s, lo, hi, lo + 1, lo + 1, hi - 1, hi - 1)
  {
    assert cmp(s[lo], s[lo]) <= 0 <==> cmp(s[lo], s[lo]) >= 0;
  }

  lemma SplitSmaller<T(!new)>(cmp: (T, T) -> int, s: seq<T>, lo: nat, hi: nat, pa: nat, pb: nat, pc: nat, pd: nat)
    requires Splitting(cmp, s, lo, hi, pa, pb, pc, pd) && pb <= pc && cmp(s[pb], s[lo]) <= 0
    ensures cmp(s[pb], s[lo]) < 0 ==> Splitting(cmp, s, lo, hi, pa, pb + 1, pc, pd)
    ensures cmp(s[pb], s[lo]) == 0 ==> Splitting(cmp, Swapped(s, pa, pb), lo, hi, pa + 1, pb + 1, pc, pd)
  {
  }

  lemma SplitLarger<T(!new)>(cmp: (T, T) -> int, s: seq<T>, lo: nat, hi: nat, pa: nat, pb: nat, pc: nat, pd: nat)
    requires Splitting(cmp, s, lo, hi, pa, pb, pc, pd) && pb <= pc && cmp(s[pc], s[lo]) >= 0
    ensures pc > 0 && (cmp(s[pc], s[lo]) > 0 ==> Splitting(cmp, s, lo, hi, pa, pb, pc - 1, pd))
    ensures pd > 0 && (cmp(s[pc], s[lo]) == 0 ==> Splitting(cmp, Swapped(s, pc, pd), lo, hi, pa, pb, pc - 1, pd - 1))
  {
  }

  lemma SplitSwap<T(!new)>(cmp: (T, T) -> int, s: seq<T>, lo: nat, hi: nat, pa: nat, pb: nat, pc: nat, pd: nat)
    requires Splitting(cmp, s, lo, hi, pa, pb, pc, pd) && pb <= pc && cmp(s[pb], s[lo]) > 0 && cmp(s[pc], s[lo]) < 0
    ensures pb < pc && Splitting(cmp, Swapped(s, pb, pc), lo, hi, pa, pb + 1, pc - 1, pd)
  {
  }

  /** Two blocks of `r` elements exchanged. */
  ghost predicate Exchanged<T>(s: seq<T>, t: seq<T>, a: nat, b: nat, r: nat) {
    && a + r <= b && b + r <= |s| == |t|
    && (forall i :: a <= i < a + r ==> t[i] == s[i + (b - a)])
    && (forall i :: b <= i < b + r ==> t[i] == s[i - (b - a)])
    && (forall i :: 0 <= i < |s| && !(a <= i < a + r) && !(b <= i < b + r) ==> t[i] == s[i])
  }

  /** Smaller elements first, then all equal to the pivot, then larger ones. */
  ghost predicate Split3<T(!new)>(cmp: (T, T) -> int, s: seq<T>, p: T, lo: nat, l: nat, g: nat, hi: nat) {
    && lo <= l < g <= hi <= |s|
    && (forall i :: lo <= i < l ==> cmp(s[i], p) < 0)
    && (forall i :: l <= i < g ==> cmp(s[i], p) == 0)
    && (forall i :: g <= i < hi ==> cmp(s[i], p) > 0)
  }

  function Min(a: nat, b: nat): nat {
    if a < b then a else b
  }

  /** Bringing the equal elements from the ends to the middle. */
  lemma SplitEnd<T(!new)>(cmp: (T, T) -> int, s: seq<T>, t: seq<T>, u: seq<T>, lo: nat, hi: nat, pa: nat, pb: nat, pc: nat, pd: nat)
    requires Splitting(cmp, s, lo, hi, pa, pb, pc, pd) && pb == pc + 1
    requires Exchanged(s, t, lo, pb - Min(pa - lo, pb - pa), Min(pa - lo, pb - pa))
    requires Exchanged(t, u, pb, hi - Min(pd - pc, hi - pd - 1), Min(pd - pc, hi - pd - 1))
    ensures Split3(cmp, u, s[lo], lo, lo + (pb - pa), hi - (pd - pc), hi)
  {
    SplitFront(cmp, s, t, lo, hi, pa, pb, pc, pd);
    assert forall k :: pb <= k < hi ==> t[k] == s[k];
    assert forall k :: lo <= k < pb ==> u[k] == t[k];
    SplitBack(cmp, s, t, u, lo, hi, pa, pb, pc, pd);
    hide Splitting, Exchanged;
  }

  lemma SplitFront<T(!new)>(cmp: (T, T) -> int, s: seq<T>, t: seq<T>, lo: nat, hi: nat, pa: nat, pb: nat, pc: nat, pd: nat)
    requires Splitting(cmp, s, lo, hi, pa, pb, pc, pd) && pb == pc + 1
    requires Exchanged(s, t, lo, pb - Min(pa - lo, pb - pa), Min(pa - lo, pb - pa))
    ensures forall i :: lo <= i < pb ==> if i < lo + (pb - pa) then cmp(t[i], s[lo]) < 0 else cmp(t[i], s[lo]) == 0
  {
    forall i | lo <= i < pb
      ensures if i < lo + (pb - pa) then cmp(t[i], s[lo]) < 0 else cmp(t[i], s[lo]) == 0
    {
      FrontAfter(cmp, s, t, lo, pa, pb, s[lo], i);
    }
  }

  lemma SplitBack<T(!new)>(cmp: (T, T) -> int, s: seq<T>, t: seq<T>, u: seq<T>, lo: nat, hi: nat, pa: nat, pb: nat, pc: nat, pd: nat)
    requires Splitting(cmp, s, lo, hi, pa, pb, pc, pd) && pb == pc + 1
    requires |t| == |s| && forall k :: pb <= k < hi ==> t[k] == s[k]
    requires Exchanged(t, u, pb, hi - Min(pd - pc, hi - pd - 1), Min(pd - pc, hi - pd - 1))
    ensures forall i :: pb <= i < hi ==> if i < hi - (pd - pc) then cmp(u[i], s[lo]) == 0 else cmp(u[i], s[lo]) > 0
  {
    forall i | pb <= i < hi
      ensures if i < hi - (pd - pc) then cmp(u[i], s[lo]) == 0 else cmp(u[i], s[lo]) > 0
    {
      BackAfter(cmp, t, u, pb, pd, hi, s[lo], i);
    }
  }

  lemma FrontAfter<T(!new)>(cmp: (T, T) -> int, s: seq<T>, t: seq<T>, lo: nat, pa: nat, pb: nat, p: T, i: nat)
    requires lo <= pa <= pb <= |s| && lo <= i < pb
    requires Exchanged(s, t, lo, pb - Min(pa - lo, pb - pa), Min(pa - lo, pb - pa))
    requires forall k :: lo <= k < pa ==> cmp(s[k], p) == 0
    requires forall k :: pa <= k < pb ==> cmp(s[k], p) < 0
    ensures if i < lo + (pb - pa) then cmp(t[i], p) < 0 else cmp(t[i], p) == 0
  {
    var r := Min(pa - lo, pb - pa);
    assert i < lo + r ==> t[i] == s[i + (pb - r - lo)];
    assert i >= pb - r ==> t[i] == s[i - (pb - r - lo)];
  }

  lemma BackAfter<T(!new)>(cmp: (T, T) -> int, s: seq<T>, t: seq<T>, pb: nat, pd: nat, hi: nat, p: T, i: nat)
    requires pb <= pd + 1 && pd < hi <= |s| && pb <= i < hi
    requires Exchanged(s, t, pb, hi - Min(pd + 1 - pb, hi - pd - 1), Min(pd + 1 - pb, hi - pd - 1))
    requires forall k :: pb <= k <= pd ==> cmp(s[k], p) > 0
    requires forall k :: pd < k < hi ==> cmp(s[k], p) == 0
    ensures if i < hi - (pd + 1 - pb) then cmp(t[i], p) == 0 else cmp(t[i], p) > 0
  {
    var r := Min(pd + 1 - pb, hi - pd - 1);
    assert i < pb + r ==> t[i] == s[i + (hi - r - pb)];
    assert i >= hi - r ==> t[i] == s[i - (hi - r - pb)];
  }
}
