/** The priority queue behind the timed events: a sorted array with binary-search insertion.  What
    comes first lies at the end; of equals, the older one. */
module PrioQueue {
  import RingQueue

  /** What the comparison function has to be. */
  ghost predicate TotalPreorder<T(!new)>(cmp: (T, T) -> int) {
    && (forall a, b :: cmp(a, b) <= 0 <==> cmp(b, a) >= 0)
    && (forall a, b, c :: cmp(a, b) <= 0 && cmp(b, c) <= 0 ==> cmp(a, c) <= 0)
  }

  ghost predicate Sorted<T(!new)>(cmp: (T, T) -> int, s: seq<T>) {
    forall i, j :: 0 <= i < j < |s| ==> cmp(s[i], s[j]) <= 0
  }

  /** Where `val` goes: behind all smaller elements, in front of all equal or larger ones. */
  ghost predicate Place<T(!new)>(cmp: (T, T) -> int, s: seq<T>, val: T, pos: nat) {
    && pos <= |s|
    && (forall i :: 0 <= i < pos ==> cmp(s[i], val) < 0)
    && (forall i :: pos <= i < |s| ==> cmp(s[i], val) >= 0)
  }

  ghost function Inserted<T>(s: seq<T>, pos: nat, val: T): seq<T>
    requires pos <= |s|
  {
    s[..pos] + [val] + s[pos..]
  }

  lemma InsertedSorted<T(!new)>(cmp: (T, T) -> int, s: seq<T>, val: T, pos: nat)
    requires TotalPreorder(cmp) && Sorted(cmp, s) && Place(cmp, s, val, pos)
    ensures Sorted(cmp, Inserted(s, pos, val))
  {
    var r := Inserted(s, pos, val);
    forall i, j | 0 <= i < j < |r|
      ensures cmp(r[i], r[j]) <= 0
    {
      assert r[i] == if i < pos then s[i] else if i == pos then val else s[i - 1];
      assert r[j] == if j < pos then s[j] else if j == pos then val else s[j - 1];
    }
  }

  /** There is one such place only. */
  lemma OnePlace<T(!new)>(cmp: (T, T) -> int, s: seq<T>, val: T, p: nat, q: nat)
    requires Place(cmp, s, val, p) && Place(cmp, s, val, q)
    ensures p == q
  {
    var k := if p < q then p else q;
    assert k < |s| ==> (cmp(s[k], val) < 0 <==> k < p) && (cmp(s[k], val) < 0 <==> k < q);
  }

  /** Read from the end, the elements are in order, and of equals the one with the smaller stamp
      comes first. */
  ghost predicate Ranked<T(!new)>(cmp: (T, T) -> int, stamp: T -> int, s: seq<T>) {
    forall i, j :: 0 <= i < j < |s| ==> cmp(s[i], s[j]) < 0 || (cmp(s[i], s[j]) == 0 && stamp(s[i]) > stamp(s[j]))
  }

  /** Inserting an element with a new, larger stamp keeps this: equals leave the queue in the order
      in which they came. */
  lemma InsertedRanked<T(!new)>(cmp: (T, T) -> int, stamp: T -> int, s: seq<T>, val: T, pos: nat)
    requires TotalPreorder(cmp) && Ranked(cmp, stamp, s) && Place(cmp, s, val, pos)
    requires forall i :: 0 <= i < |s| ==> stamp(s[i]) < stamp(val)
    ensures Ranked(cmp, stamp, Inserted(s, pos, val))
  {
    var r := Inserted(s, pos, val);
    forall i, j | 0 <= i < j < |r|
      ensures cmp(r[i], r[j]) < 0 || (cmp(r[i], r[j]) == 0 && stamp(r[i]) > stamp(r[j]))
    {
      if i == pos {
        assert r[j] == s[j - 1] && cmp(s[j - 1], val) >= 0;
        assert cmp(val, r[j]) <= 0;
      } else if j == pos {
        assert r[i] == s[i] && cmp(s[i], val) < 0;
      } else {
        assert r[i] == s[if i < pos then i else i - 1] && r[j] == s[if j < pos then j else j - 1];
      }
    }
  }

  lemma {:induction false} WithoutSorted<T(!new)>(cmp: (T, T) -> int, s: seq<T>, pred: T -> bool)
    requires Sorted(cmp, s)
    ensures Sorted(cmp, RingQueue.Without(s, pred))
    ensures forall x :: x in RingQueue.Without(s, pred) ==> x in s && !pred(x)
    ensures forall x :: x in s && !pred(x) ==> x in RingQueue.Without(s, pred)
  {
    if s != [] {
      var m := |s| - 1;
      assert s == s[..m] + [s[m]];
      WithoutSorted(cmp, s[..m], pred);
      var w := RingQueue.Without(s[..m], pred);
      forall i | 0 <= i < |w|
        ensures cmp(w[i], s[m]) <= 0
      {
        assert w[i] in w;
        var k :| 0 <= k < m && s[k] == w[i];
      }
    }
  }

  class PQueue<T(0, !new)> {
    const cmp: (T, T) -> int
    var data: array<T>
    var size: nat

    ghost predicate Valid()
      reads this, data
    {
      size <= data.Length && TotalPreorder(cmp) && Sorted(cmp, data[..size])
    }

    ghost function Contents(): (s: seq<T>)
      requires size <= data.Length
      reads this, data
    {
      data[..size]
    }

    lemma ContentsSorted()
      requires Valid()
      ensures size <= data.Length && TotalPreorder(cmp) && Sorted(cmp, Contents())
    {
    }

    constructor (capacity: nat, cmp: (T, T) -> int)
      requires TotalPreorder(cmp)
      ensures Valid() && Contents() == [] && this.cmp == cmp && fresh(data) && data.Length == capacity && size == 0
    {
      this.cmp := cmp;
      data := new T[capacity];
      size := 0;
    }

    /** Binary search for the place of `val`. */
    method Find(val: T) returns (pos: nat)
      requires Valid()
      ensures Place(cmp, Contents(), val, pos)
    {
      hide Sorted, TotalPreorder, Searching;
      ghost var s := data[..size];
      var low, high := 0, size - 1;
      SearchStart(cmp, s, val);
      while low <= high
        invariant 0 <= low <= size && -1 <= high < size && low <= high + 1
        invariant Searching(cmp, s, val, low, high)
        decreases high - low
      {
        var mid := (low + high) / 2;
        SearchStep(cmp, s, val, low, high, mid);
        assert data[mid] == s[mid];
        if cmp(data[mid], val) >= 0 {
          high := mid - 1;
        } else {
          low := mid + 1;
        }
      }
      SearchEnd(cmp, s, val, low);
      pos := low;
    }

    /** Insert `val`; the elements behind its place move up by one.  False, and nothing changed, when
        there is no memory to grow. */
    method Push(val: T, memory: bool) returns (ok: bool)
      requires Valid()
      modifies this, data
      ensures Valid() && (data == old(data) || fresh(data))
      ensures ok <==> memory || old(size) < old(data.Length)
      ensures !ok ==> Contents() == old(Contents()) && data == old(data) && size == old(size)
      ensures ok ==> exists pos :: Place(cmp, old(Contents()), val, pos) && Contents() == Inserted(old(Contents()), pos, val)
      ensures ok && old(size) == old(data.Length) ==> data.Length == (if old(size) == 0 then 16 else 2 * old(size))
      ensures old(size) < old(data.Length) ==> data == old(data)
    {
      ghost var was := Contents();
      var pos := Find(val);
      ok := true;
      if size == data.Length {
        ok := Grow(if data.Length > 0 then data.Length * 2 else 16, memory);
      }
      if ok {
        Shift(pos, val);
        InsertedSorted(cmp, was, val, pos);
      }
    }

    method Grow(newCapacity: nat, memory: bool) returns (ok: bool)
      requires size <= data.Length < newCapacity
      modifies this`data
      ensures size <= data.Length && Contents() == old(Contents()) && ok == memory
      ensures if ok then fresh(data) && data.Length == newCapacity else data == old(data)
    {
      ok := memory;
      if ok {
        var newData := new T[newCapacity];
        forall i | 0 <= i < size {
          newData[i] := data[i];
        }
        data := newData;
      }
    }

    /** Move the elements from `pos` on up by one and put `val` there. */
    method Shift(pos: nat, val: T)
      requires pos <= size < data.Length
      modifies this`size, data
      ensures size <= data.Length && Contents() == Inserted(old(Contents()), pos, val)
    {
      forall i | pos < i <= size {
        data[i] := data[i - 1];
      }
      data[pos] := val;
      size := size + 1;
    }

    method Peek() returns (ok: bool, val: T)
      requires Valid()
      ensures ok <==> Contents() != []
      ensures ok ==> val == Contents()[|Contents()| - 1] && forall x :: x in Contents() ==> cmp(x, val) <= 0
    {
      ok := size > 0;
      val := *;
      if ok {
        val := data[size - 1];
        TopIs(val);
      }
    }

    lemma TopIs(val: T)
      requires Valid() && size > 0 && val == data[size - 1]
      ensures forall x :: x in Contents() ==> cmp(x, val) <= 0
    {
      var s := data[..size];
      assert cmp(val, val) <= 0 by {
        assert cmp(val, val) <= 0 <==> cmp(val, val) >= 0;
      }
      forall x | x in s
        ensures cmp(x, val) <= 0
      {
        var i :| 0 <= i < |s| && s[i] == x;
        assert i < size - 1 ==> cmp(s[i], s[size - 1]) <= 0;
      }
    }

    /** Take out what comes first. */
    method Pop() returns (ok: bool, val: T)
      requires Valid()
      modifies this`size
      ensures Valid()
      ensures ok <==> old(Contents()) != []
      ensures ok ==> old(Contents()) == Contents() + [val] && forall x :: x in old(Contents()) ==> cmp(x, val) <= 0
      ensures !ok ==> Contents() == old(Contents())
    {
      ok := size > 0;
      val := *;
      if ok {
        val := data[size - 1];
        TopIs(val);
        size := size - 1;
      }
    }

    /** Take all elements out that satisfy `pred`; the others keep their order. */
    method Remove(pred: T -> bool) returns (count: nat)
      requires Valid()
      modifies this`size, data
      ensures Valid() && Contents() == RingQueue.Without(old(Contents()), pred)
      ensures count == old(size) - size
    {
      hide Sorted, TotalPreorder, RingQueue.Without;
      ghost var was := Contents();
      count := 0;
      var todo, dst: nat, src: nat := size, 0, 0;
      CompactStart(data[..], was, pred);
      while todo > 0
        invariant src + todo == size == |was| && dst + count == src && size <= data.Length
        invariant Compacting(data[..], was, pred, dst, src)
      {
        CompactStep(data[..], was, pred, dst, src);
        if pred(data[src]) {
          count := count + 1;
        } else {
          if dst != src {
            data[dst] := data[src];
          }
          dst := dst + 1;
        }
        todo, src := todo - 1, src + 1;
      }
      size := size - count;
      assert was[..src] == was;
      WithoutSorted(cmp, was, pred);
      assert data[..size] == data[..][..size];
    }
  }

  // ---------- binary search ----------

  /** Everything in front of `low` is smaller than `val`, nothing behind `high` is. */
  ghost predicate Searching<T(!new)>(cmp: (T, T) -> int, s: seq<T>, val: T, low: int, high: int) {
    && (forall i :: 0 <= i < low && i < |s| ==> cmp(s[i], val) < 0)
    && (forall i :: high < i < |s| && 0 <= i ==> cmp(s[i], val) >= 0)
  }

  lemma SearchStart<T(!new)>(cmp: (T, T) -> int, s: seq<T>, val: T)
    ensures Searching(cmp, s, val, 0, |s| - 1)
  {
  }

  lemma SearchEnd<T(!new)>(cmp: (T, T) -> int, s: seq<T>, val: T, low: nat)
    requires Searching(cmp, s, val, low, low - 1) && low <= |s|
    ensures Place(cmp, s, val, low)
  {
  }

  lemma Between<T(!new)>(cmp: (T, T) -> int, a: T, b: T, val: T)
    requires TotalPreorder(cmp) && cmp(a, b) <= 0
    ensures cmp(a, val) >= 0 ==> cmp(b, val) >= 0
    ensures cmp(b, val) < 0 ==> cmp(a, val) < 0
  {
    if cmp(a, val) >= 0 {
      assert cmp(val, a) <= 0;
      assert cmp(val, b) <= 0;
    }
  }

  lemma SearchStep<T(!new)>(cmp: (T, T) -> int, s: seq<T>, val: T, low: nat, high: nat, mid: nat)
    requires TotalPreorder(cmp) && Sorted(cmp, s) && low <= mid <= high < |s| && Searching(cmp, s, val, low, high)
    ensures cmp(s[mid], val) >= 0 ==> Searching(cmp, s, val, low, mid - 1)
    ensures cmp(s[mid], val) < 0 ==> Searching(cmp, s, val, mid + 1, high)
  {
    forall i | 0 <= i < |s|
      ensures i < mid && cmp(s[mid], val) < 0 ==> cmp(s[i], val) < 0
      ensures i > mid && cmp(s[mid], val) >= 0 ==> cmp(s[i], val) >= 0
    {
      if i < mid {
        Between(cmp, s[i], s[mid], val);
      } else if i > mid {
        Between(cmp, s[mid], s[i], val);
      }
    }
  }

  // ---------- compaction ----------

  ghost predicate Compacting<T>(d: seq<T>, was: seq<T>, pred: T -> bool, dst: nat, src: nat) {
    && dst <= src <= |was| <= |d|
    && d[..dst] == RingQueue.Without(was[..src], pred)
    && d[src..|was|] == was[src..]
  }

  lemma CompactStart<T>(d: seq<T>, was: seq<T>, pred: T -> bool)
    requires |was| <= |d| && d[..|was|] == was
    ensures Compacting(d, was, pred, 0, 0)
  {
    assert was[..0] == [];
  }

  lemma CompactStep<T>(d: seq<T>, was: seq<T>, pred: T -> bool, dst: nat, src: nat)
    requires Compacting(d, was, pred, dst, src) && src < |was|
    ensures d[src] == was[src]
    ensures pred(was[src]) ==> Compacting(d, was, pred, dst, src + 1)
    ensures !pred(was[src]) ==> Compacting(d[dst := d[src]], was, pred, dst + 1, src + 1)
  {
    assert d[src] == d[src..|was|][0] == was[src..][0];
    assert d[src + 1..|was|] == d[src..|was|][1..];
    RingQueue.WithoutNext(was, src, pred);
    var e := d[dst := d[src]];
    assert e[..dst + 1] == d[..dst] + [was[src]];
    assert e[src + 1..|was|] == d[src + 1..|was|];
  }
}
